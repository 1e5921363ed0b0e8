/** Every field of a ticket after any run of calls, told from the chats, decisions and findings themselves. */
module TicketRecord {
  import opened Options
  import opened TicketHistory
  import opened TicketStore

  // ---- Status ----

  /** The last call that sets the status: a finalize with the key, or a decision on its ticket. */
  function LastStep(ops: seq<Op>, key: string, id: string): (op: Op)
    requires key in Keys(ops)
    ensures (op.Finalize? && KeyOf(op.chat) == key) || (op.Decide? && op.ticketId == id)
  {
    var last := ops[|ops| - 1];
    if (last.Finalize? && KeyOf(last.chat) == key) || (last.Decide? && last.ticketId == id) then last
    else LastStep(ops[..|ops| - 1], key, id)
  }

  lemma {:induction false} LatestStatusIsOfLastStep(ops: seq<Op>, key: string, id: string)
    requires key in Keys(ops)
    ensures
      var op := LastStep(ops, key, id);
      LatestStatus(ops, key, id) == if op.Finalize? then StatusOf(op.chat) else StatusAfter(op.decision.verdict)
  {
    var last := ops[|ops| - 1];
    if !((last.Finalize? && KeyOf(last.chat) == key) || (last.Decide? && last.ticketId == id)) {
      LatestStatusIsOfLastStep(ops[..|ops| - 1], key, id);
    }
  }

  predicate AsksApproval(chat: Chat) {
    chat.caseState.Some? && chat.caseState.value.approvalRequired
  }

  /** The rules decided that nothing is to be done. */
  predicate NothingToDo(chat: Chat) {
    chat.caseState.Some? && chat.caseState.value.rule.Some? && chat.caseState.value.rule.value.0 == NoAction
  }

  /** What the chat asks of staff, by approval flag, action and missing information. */
  lemma ChatStatusExactlyWhen(chat: Chat)
    ensures
      var approval, missing, nothing := AsksApproval(chat), chat.needsMoreInfo, NothingToDo(chat);
      && (StatusOf(chat) == PendingApproval <==> approval)
      && (StatusOf(chat) == NeedMoreInfo <==> !approval && missing)
      && (StatusOf(chat) == ClosedNoAction <==> !approval && !missing && nothing)
      && (StatusOf(chat) == PendingReview <==> !approval && !missing && !nothing)
  {
  }

  /** In every run a ticket is approved exactly by an approval, and closed exactly by a rejection or by a chat that
      needs no approval, no information and no action; the other statuses likewise. */
  lemma StatusExactlyWhen(sv: Services, ops: seq<Op>, key: string)
    requires FreshIds(sv, ops) && key in Keys(ops)
    ensures
      var s, id := Run(sv, ops), FirstId(ops, key);
      && id in s.tickets
      && var status, op := s.tickets[id].status, LastStep(ops, key, id);
         && (status == Approved <==> op.Decide? && op.decision.verdict == Approve)
         && (status == ClosedNoAction <==>
             || (op.Decide? && op.decision.verdict == Reject)
             || (op.Finalize? && !AsksApproval(op.chat) && !op.chat.needsMoreInfo && NothingToDo(op.chat)))
         && (status == NeedMoreInfo <==>
             || (op.Decide? && op.decision.verdict == RequestInfo)
             || (op.Finalize? && !AsksApproval(op.chat) && op.chat.needsMoreInfo))
         && (status == PendingApproval <==> op.Finalize? && AsksApproval(op.chat))
         && (status == PendingReview <==>
             op.Finalize? && !AsksApproval(op.chat) && !op.chat.needsMoreInfo && !NothingToDo(op.chat))
  {
    TicketIsItsHistory(sv, ops, key);
    LatestStatusIsOfLastStep(ops, key, FirstId(ops, key));
    var op := LastStep(ops, key, FirstId(ops, key));
    if op.Finalize? {
      ChatStatusExactlyWhen(op.chat);
    }
  }

  // ---- The audit log ----

  /** The decisions on the ticket since it exists, in order, each with the action advised at that moment. */
  function Decisions(sv: Services, ops: seq<Op>, id: string): seq<(Decision, Action)> {
    if ops == [] then []
    else
      var before, last := ops[..|ops| - 1], ops[|ops| - 1];
      Decisions(sv, before, id) +
      if last.Decide? && last.ticketId == id && id in Run(sv, before).tickets
      then [(last.decision, Run(sv, before).tickets[id].advice.action)] else []
  }

  lemma {:induction false} LogEntries(sv: Services, ops: seq<Op>, id: string, k: nat)
    ensures |DecisionLog(sv, ops, id)| == |Decisions(sv, ops, id)|
    ensures k < |Decisions(sv, ops, id)| ==>
              var e, (d, action) := DecisionLog(sv, ops, id)[k], Decisions(sv, ops, id)[k];
              && e.actor == d.actor && e.verdict == d.verdict && e.timestamp == d.now && e.comment == d.comment
              && e.contractEvent == if d.verdict == Approve then Some(sv.contractOf(action).auditEvent) else None
  {
    if ops != [] {
      var before := ops[..|ops| - 1];
      LogEntries(sv, before, id, k);
    }
  }

  /** In every run the audit log has one entry for each decision on the ticket, in order, with its actor, verdict,
      time and comment, and on approval the audit event of the contract for the action advised then. */
  lemma LogIsItsDecisions(sv: Services, ops: seq<Op>, key: string, k: nat)
    requires FreshIds(sv, ops) && key in Keys(ops) && k < |Decisions(sv, ops, FirstId(ops, key))|
    ensures
      var s, id := Run(sv, ops), FirstId(ops, key);
      && id in s.tickets && |s.tickets[id].log| == |Decisions(sv, ops, id)|
      && var e, (d, action) := s.tickets[id].log[k], Decisions(sv, ops, id)[k];
         && e.actor == d.actor && e.verdict == d.verdict && e.timestamp == d.now && e.comment == d.comment
         && e.contractEvent == if d.verdict == Approve then Some(sv.contractOf(action).auditEvent) else None
  {
    TicketIsItsHistory(sv, ops, key);
    LogEntries(sv, ops, FirstId(ops, key), k);
  }

  // ---- Advice ----

  function ActionOf(chat: Chat): Action {
    if chat.caseState.Some? && chat.caseState.value.rule.Some? then chat.caseState.value.rule.value.0 else Unset
  }

  /** The advised action: the chat's at the last finalize, unless an opening found something since: a manual review
      when it resolved nothing, and otherwise the action found, if any. */
  function LatestAction(sv: Services, ops: seq<Op>, key: string, id: string): Action {
    if ops == [] then Unset
    else
      var before, last := ops[..|ops| - 1], ops[|ops| - 1];
      var s := Run(sv, before);
      if last.Finalize? && KeyOf(last.chat) == key then ActionOf(last.chat)
      else if last.Open? && last.ticketId == id && id in s.tickets && sv.investigate(s.tickets[id]).Some? then
        var found := sv.investigate(s.tickets[id]).value;
        if !found.resolved then ManualReview
        else if found.action != Unset then found.action
        else LatestAction(sv, before, key, id)
      else LatestAction(sv, before, key, id)
  }

  /** The risk: the chat's at the last finalize, unless an opening since resolved it to a level. */
  function LatestRisk(sv: Services, ops: seq<Op>, key: string, id: string): Risk {
    if ops == [] then Unrated
    else
      var before, last := ops[..|ops| - 1], ops[|ops| - 1];
      var s := Run(sv, before);
      if last.Finalize? && KeyOf(last.chat) == key then
        if last.chat.caseState.Some? then last.chat.caseState.value.risk else Unrated
      else if last.Open? && last.ticketId == id && id in s.tickets && sv.investigate(s.tickets[id]).Some?
              && sv.investigate(s.tickets[id]).value.resolved && sv.investigate(s.tickets[id]).value.risk != Unrated
      then sv.investigate(s.tickets[id]).value.risk
      else LatestRisk(sv, before, key, id)
  }

  /** The confidence: the chat's at the last finalize, low unless its diagnosis gives a level, unless an opening
      since found one. */
  function LatestConfidence(sv: Services, ops: seq<Op>, key: string, id: string): Confidence {
    if ops == [] then Low
    else
      var before, last := ops[..|ops| - 1], ops[|ops| - 1];
      var s := Run(sv, before);
      if last.Finalize? && KeyOf(last.chat) == key then
        var d := last.chat.diagnosis;
        if ConfidenceLevel in d && d[ConfidenceLevel].Level? then d[ConfidenceLevel].level else Low
      else if last.Open? && last.ticketId == id && id in s.tickets && sv.investigate(s.tickets[id]).Some?
              && sv.investigate(s.tickets[id]).value.confidence.Some?
      then sv.investigate(s.tickets[id]).value.confidence.value
      else LatestConfidence(sv, before, key, id)
  }

  /** In every run staff are advised what the last finalize or opening says, whatever was decided since. */
  lemma {:induction false} AdviceIsItsHistory(sv: Services, ops: seq<Op>, key: string)
    requires FreshIds(sv, ops) && key in Keys(ops)
    ensures
      var s, id := Run(sv, ops), FirstId(ops, key);
      && id in s.tickets
      && s.tickets[id].advice.action == LatestAction(sv, ops, key, id)
      && s.tickets[id].advice.risk == LatestRisk(sv, ops, key, id)
      && s.tickets[id].confidence == LatestConfidence(sv, ops, key, id)
  {
    var before, last := ops[..|ops| - 1], ops[|ops| - 1];
    OneTicketPerKey(sv, before);
    if key in Keys(before) {
      AdviceIsItsHistory(sv, before, key);
      StepOn(sv, Run(sv, before), last, key);
    } else {
      FirstStepOn(sv, Run(sv, before), last.chat, last.freshId);
    }
  }

  // ---- What the chat leaves ----

  /** The chat of the last finalize with the key. */
  function LastChat(ops: seq<Op>, key: string): Chat
    requires key in Keys(ops)
  {
    var last := ops[|ops| - 1];
    if last.Finalize? && KeyOf(last.chat) == key then last.chat else LastChat(ops[..|ops| - 1], key)
  }

  ghost predicate IsIntakeOf(i: Intake, chat: Chat) {
    && i.caseId == chat.caseId && i.sessionId == chat.sessionId && i.subjectType == chat.subjectType
    && i.digest == chat.digest && i.extractedInfo == chat.extractedInfo
    && i.workflow == (if chat.workflow != "" then chat.workflow else TextOf(chat.diagnosis, WorkflowName))
    && i.issueType == TextOf(chat.diagnosis, Situation)
  }

  function TextOf(facts: Facts, key: Key): string {
    match At(facts, key)
    case Some(Note(text)) => text
    case _ => ""
  }

  /** In every run a ticket's intake is that of the last chat finalized under its key. */
  lemma {:induction false} IntakeIsItsHistory(sv: Services, ops: seq<Op>, key: string)
    requires FreshIds(sv, ops) && key in Keys(ops)
    ensures
      var s, id := Run(sv, ops), FirstId(ops, key);
      id in s.tickets && IsIntakeOf(s.tickets[id].intake, LastChat(ops, key))
  {
    var before, last := ops[..|ops| - 1], ops[|ops| - 1];
    OneTicketPerKey(sv, before);
    if key in Keys(before) {
      IntakeIsItsHistory(sv, before, key);
      StepOn(sv, Run(sv, before), last, key);
    } else {
      FirstStepOn(sv, Run(sv, before), last.chat, last.freshId);
    }
  }

  // ---- What staff see ----

  /** What a chat leaves as evidence: three facts of its diagnosis, empty ones when it lacks them, and what the rules
      said. */
  function Shown(chat: Chat, key: Key): Option<Info> {
    match key
    case WhatWasChecked | ConfirmedFacts =>
      Some(if key in chat.diagnosis then chat.diagnosis[key] else Labels([]))
    case LikelyIssue => Some(if key in chat.diagnosis then chat.diagnosis[key] else Note(""))
    case RuleDiagnosis =>
      if chat.caseState.Some? && chat.caseState.value.rule.Some? then Some(Note(chat.caseState.value.rule.value.1)) else None
    case _ => None
  }

  lemma FinalizedAt(t: TicketData, chat: Chat, key: Key)
    ensures At(Finalized(t, chat).evidence, key) == Shown(chat, key)
    ensures At(Finalized(t, chat).diagnosis, key) == At(chat.diagnosis, key)
  {
  }

  /** The findings of the call, if it opened the ticket and found any. */
  function FoundBy(sv: Services, s: Store, op: Op, id: string): Option<Investigation> {
    if op.Open? && op.ticketId == id && id in s.tickets then sv.investigate(s.tickets[id]) else None
  }

  /** A key of the staff evidence: what the last opening since the last finalize found under it, or else the chat. */
  function LatestEvidence(sv: Services, ops: seq<Op>, ticketKey: string, id: string, key: Key): Option<Info> {
    if ops == [] then None
    else
      var before, last := ops[..|ops| - 1], ops[|ops| - 1];
      var inv := FoundBy(sv, Run(sv, before), last, id);
      if last.Finalize? && KeyOf(last.chat) == ticketKey then Shown(last.chat, key)
      else if inv.Some? && Finding(inv.value, key).Some? then Finding(inv.value, key)
      else LatestEvidence(sv, before, ticketKey, id, key)
  }

  /** A key of the customer's diagnosis: the same, but an opening changes only the likely issue unless it resolved
      the case. */
  function LatestDiagnosis(sv: Services, ops: seq<Op>, ticketKey: string, id: string, key: Key): Option<Info> {
    if ops == [] then None
    else
      var before, last := ops[..|ops| - 1], ops[|ops| - 1];
      var inv := FoundBy(sv, Run(sv, before), last, id);
      if last.Finalize? && KeyOf(last.chat) == ticketKey then At(last.chat.diagnosis, key)
      else if inv.Some? && Finding(inv.value, key).Some?
              && (key == LikelyIssue || (inv.value.resolved && (key == ConfirmedFacts || key == WhatWasChecked)))
      then Finding(inv.value, key)
      else LatestDiagnosis(sv, before, ticketKey, id, key)
  }

  lemma SeenAt(investigate: TicketData -> Option<Investigation>, t: TicketData, key: Key)
    ensures
      var inv, seen := investigate(t), Seen(investigate, t);
      && At(seen.evidence, key) ==
         (if inv.Some? && Finding(inv.value, key).Some? then Finding(inv.value, key) else At(t.evidence, key))
      && At(seen.diagnosis, key) ==
         (if inv.Some? && Finding(inv.value, key).Some?
             && (key == LikelyIssue || (inv.value.resolved && (key == ConfirmedFacts || key == WhatWasChecked)))
          then Finding(inv.value, key) else At(t.diagnosis, key))
  {
    var inv := investigate(t);
    if inv.Some? {
      EvidenceAt(t.evidence, inv.value, key);
      DiagnosisAt(t.diagnosis, inv.value, key);
    }
  }

  lemma SeenByStep(sv: Services, s: Store, op: Op, ticketKey: string, key: Key)
    requires Bijective(s) && FreshOp(s, op) && ticketKey in s.byCase
    ensures
      var s', id := Apply(sv, s, op), s.byCase[ticketKey];
      var inv := FoundBy(sv, s, op, id);
      && id in s.tickets && id in s'.tickets
      && At(s'.tickets[id].evidence, key) ==
         if op.Finalize? && KeyOf(op.chat) == ticketKey then Shown(op.chat, key)
         else if inv.Some? && Finding(inv.value, key).Some? then Finding(inv.value, key)
         else At(s.tickets[id].evidence, key)
  {
    StepOn(sv, s, op, ticketKey);
    SeenAt(sv.investigate, s.tickets[s.byCase[ticketKey]], key);
    if op.Finalize? {
      FinalizedAt(s.tickets[s.byCase[ticketKey]], op.chat, key);
    }
  }

  lemma DiagnosedByStep(sv: Services, s: Store, op: Op, ticketKey: string, key: Key)
    requires Bijective(s) && FreshOp(s, op) && ticketKey in s.byCase
    ensures
      var s', id := Apply(sv, s, op), s.byCase[ticketKey];
      var inv := FoundBy(sv, s, op, id);
      && id in s.tickets && id in s'.tickets
      && At(s'.tickets[id].diagnosis, key) ==
         if op.Finalize? && KeyOf(op.chat) == ticketKey then At(op.chat.diagnosis, key)
         else if inv.Some? && Finding(inv.value, key).Some?
                 && (key == LikelyIssue || (inv.value.resolved && (key == ConfirmedFacts || key == WhatWasChecked)))
         then Finding(inv.value, key)
         else At(s.tickets[id].diagnosis, key)
  {
    StepOn(sv, s, op, ticketKey);
    SeenAt(sv.investigate, s.tickets[s.byCase[ticketKey]], key);
    if op.Finalize? {
      FinalizedAt(s.tickets[s.byCase[ticketKey]], op.chat, key);
    }
  }

  /** In every run each key of the staff evidence holds what the last of these calls said. */
  lemma {:induction false} EvidenceIsItsHistory(sv: Services, ops: seq<Op>, ticketKey: string, key: Key)
    requires FreshIds(sv, ops) && ticketKey in Keys(ops)
    ensures
      var s, id := Run(sv, ops), FirstId(ops, ticketKey);
      id in s.tickets && At(s.tickets[id].evidence, key) == LatestEvidence(sv, ops, ticketKey, id, key)
  {
    var before, last := ops[..|ops| - 1], ops[|ops| - 1];
    OneTicketPerKey(sv, before);
    if ticketKey in Keys(before) {
      EvidenceIsItsHistory(sv, before, ticketKey, key);
      SeenByStep(sv, Run(sv, before), last, ticketKey, key);
    } else {
      FirstStepOn(sv, Run(sv, before), last.chat, last.freshId);
      FinalizedAt(BLANK, last.chat, key);
    }
  }

  /** And each key of the diagnosis. */
  lemma {:induction false} DiagnosisIsItsHistory(sv: Services, ops: seq<Op>, ticketKey: string, key: Key)
    requires FreshIds(sv, ops) && ticketKey in Keys(ops)
    ensures
      var s, id := Run(sv, ops), FirstId(ops, ticketKey);
      id in s.tickets && At(s.tickets[id].diagnosis, key) == LatestDiagnosis(sv, ops, ticketKey, id, key)
  {
    var before, last := ops[..|ops| - 1], ops[|ops| - 1];
    OneTicketPerKey(sv, before);
    if ticketKey in Keys(before) {
      DiagnosisIsItsHistory(sv, before, ticketKey, key);
      DiagnosedByStep(sv, Run(sv, before), last, ticketKey, key);
    } else {
      FirstStepOn(sv, Run(sv, before), last.chat, last.freshId);
      FinalizedAt(BLANK, last.chat, key);
    }
  }
}
