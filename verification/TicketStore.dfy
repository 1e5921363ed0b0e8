/** The back-office tickets made from customer chats, and the store that keeps one per key. */
module TicketStore {
  import opened Options
  import opened VndAmount
  import CustomerClaims

  datatype Confidence = Low | Medium | High

  /** The keys of diagnosis and evidence dictionaries. */
  datatype Key =
    | WorkflowName
    | Situation
    | ConfidenceLevel
    | WhatWasChecked
    | ConfirmedFacts
    | LikelyIssue
    | EvidenceSummary
    | MissingEvidence
    | ResolvedEntity
    | MoneyLocation
    | LikelyBottleneck
    | RuleDiagnosis
    | OtherKey(name: string)

  datatype Info =
    | Note(text: string)
    | Level(level: Confidence)
    | Labels(labels: seq<string>)
    | Entity(kind: string, id: string)
    | Checklist(rows: seq<(string, bool)>)

  type Facts = map<Key, Info>

  /** A recommended action; `Unset` is the empty string. */
  datatype Action = Unset | NoAction | WaitSla | ManualReview | OtherAction(name: string)

  /** A risk level; `Unrated` stands for a missing or empty level and for the level "unknown". */
  datatype Risk = Unrated | Rated(level: string)

  /** What staff are advised to do. */
  datatype Advice = Advice(action: Action, approvalRequired: bool, risk: Risk)

  /** What the case state says: the rule engine's action and diagnosis, if it decided. */
  datatype CaseState = CaseState(rule: Option<(Action, string)>, approvalRequired: bool, risk: Risk)

  /** What a finalize call reads from the session, the chat context and the case service. */
  datatype Chat = Chat(
    sessionId: string, caseId: string, subjectType: string, digest: string, workflow: string,
    diagnosis: Facts, extractedInfo: map<string, Claimed>, contradictions: seq<CustomerClaims.Contradiction>,
    caseState: Option<CaseState>, needsMoreInfo: bool, reason: string)

  /** What a ticket copies from the chat. */
  datatype Intake = Intake(
    caseId: string, sessionId: string, subjectType: string, digest: string,
    workflow: string, issueType: string, extractedInfo: map<string, Claimed>)

  datatype Status = PendingReview | PendingApproval | NeedMoreInfo | ClosedNoAction | Approved

  datatype Verdict = Approve | Reject | RequestInfo

  /** An audit entry; its event is the action contract's on approval and the verdict's label otherwise. */
  datatype Entry = Entry(actor: string, verdict: Verdict, contractEvent: Option<string>, timestamp: string,
                         comment: string)

  /** The value of a ticket. */
  datatype TicketData = TicketData(
    intake: Intake, diagnosis: Facts, confidence: Confidence, evidence: Facts, advice: Advice,
    status: Status, team: string, reason: string, log: seq<Entry>,
    contradictions: seq<CustomerClaims.Contradiction>)

  /** A ticket before its first finalize. */
  const BLANK := TicketData(Intake("", "", "", "", "", "", map[]), map[], Low, map[], Advice(Unset, false, Unrated),
                            PendingReview, "", "", [], [])

  function FactOr(facts: Facts, key: Key, default: Info): Info {
    if key in facts then facts[key] else default
  }

  function NoteOf(facts: Facts, key: Key): string {
    if key in facts && facts[key].Note? then facts[key].text else ""
  }

  function ConfidenceOf(facts: Facts): Confidence {
    if ConfidenceLevel in facts && facts[ConfidenceLevel].Level? then facts[ConfidenceLevel].level else Low
  }

  function IntakeOf(chat: Chat): Intake {
    Intake(chat.caseId, chat.sessionId, chat.subjectType, chat.digest,
           if chat.workflow != "" then chat.workflow else NoteOf(chat.diagnosis, WorkflowName),
           NoteOf(chat.diagnosis, Situation), chat.extractedInfo)
  }

  function RecommendedAction(state: Option<CaseState>): Advice {
    match state
    case None => Advice(Unset, false, Unrated)
    case Some(c) => Advice(if c.rule.Some? then c.rule.value.0 else Unset, c.approvalRequired, c.risk)
  }

  function ResolveStatus(advice: Advice, needsMoreInfo: bool): Status {
    if advice.approvalRequired then PendingApproval
    else if advice.action == NoAction || advice.action == WaitSla || advice.action == Unset then
      if needsMoreInfo then NeedMoreInfo
      else if advice.action == NoAction then ClosedNoAction else PendingReview
    else if needsMoreInfo then NeedMoreInfo
    else PendingReview
  }

  function StatusOf(chat: Chat): Status {
    ResolveStatus(RecommendedAction(chat.caseState), chat.needsMoreInfo)
  }

  function StaffEvidence(chat: Chat): Facts {
    var e := map[WhatWasChecked := FactOr(chat.diagnosis, WhatWasChecked, Labels([])),
                 ConfirmedFacts := FactOr(chat.diagnosis, ConfirmedFacts, Labels([])),
                 LikelyIssue := FactOr(chat.diagnosis, LikelyIssue, Note(""))];
    if chat.caseState.Some? && chat.caseState.value.rule.Some?
    then e[RuleDiagnosis := Note(chat.caseState.value.rule.value.1)] else e
  }

  /** What a finalize call writes on a ticket. Team and audit log are not written, and an empty list
      of contradictions does not replace an earlier one. */
  function Finalized(t: TicketData, chat: Chat): TicketData {
    TicketData(
      IntakeOf(chat), chat.diagnosis, ConfidenceOf(chat.diagnosis), StaffEvidence(chat),
      RecommendedAction(chat.caseState), StatusOf(chat), t.team, chat.reason, t.log,
      if chat.contradictions != [] then chat.contradictions else t.contradictions)
  }

  datatype Contract = Contract(team: string, auditEvent: string)

  /** A staff decision. */
  datatype Decision = Decision(verdict: Verdict, actor: string, comment: string, now: string)

  function StatusAfter(v: Verdict): Status {
    match v
    case Approve => Approved
    case Reject => ClosedNoAction
    case RequestInfo => NeedMoreInfo
  }

  function EntryOf(contractOf: Action -> Contract, action: Action, d: Decision): Entry {
    Entry(d.actor, d.verdict, if d.verdict == Approve then Some(contractOf(action).auditEvent) else None, d.now,
          d.comment)
  }

  function Decided(contractOf: Action -> Contract, t: TicketData, d: Decision): TicketData {
    var team := contractOf(t.advice.action).team;
    t.(status := StatusAfter(d.verdict),
       team := if d.verdict == Approve && team != "" then team else t.team,
       log := t.log + [EntryOf(contractOf, t.advice.action, d)])
  }

  /** What an investigation of a ticket found. */
  datatype Investigation = Investigation(
    resolved: bool, entityType: string, entityId: string, checklist: seq<(string, bool)>,
    missing: seq<string>, checked: seq<string>, facts: seq<string>, issue: string, location: string,
    bottleneck: string, why: string, confidence: Option<Confidence>, action: Action, approvalRequired: bool, risk: Risk)

  function Put(facts: Facts, key: Key, value: Info, when: bool): Facts {
    if when then facts[key := value] else facts
  }

  function OverlaidEvidence(ev: Facts, inv: Investigation): Facts {
    var a := ev[EvidenceSummary := Checklist(inv.checklist)][MissingEvidence := Labels(inv.missing)]
               [ResolvedEntity := Entity(inv.entityType, inv.entityId)];
    var b := Put(a, WhatWasChecked, Labels(inv.checked), inv.checked != []);
    var c := Put(b, ConfirmedFacts, Labels(inv.facts), inv.facts != []);
    var d := Put(c, LikelyIssue, Note(inv.issue), inv.issue != "");
    var e := Put(d, MoneyLocation, Note(inv.location), inv.location != "");
    var f := Put(e, LikelyBottleneck, Note(inv.bottleneck), inv.bottleneck != "");
    Put(f, RuleDiagnosis, Note(inv.why), inv.why != "")
  }

  function OverlaidDiagnosis(diag: Facts, inv: Investigation): Facts {
    var a := Put(diag, ConfirmedFacts, Labels(inv.facts), inv.resolved && inv.facts != []);
    var b := Put(a, WhatWasChecked, Labels(inv.checked), inv.resolved && inv.checked != []);
    Put(b, LikelyIssue, Note(inv.issue), inv.issue != "")
  }

  function OverlaidAdvice(advice: Advice, inv: Investigation): Advice {
    if inv.resolved then
      Advice(if inv.action != Unset then inv.action else advice.action, inv.approvalRequired,
             if inv.risk != Unrated then inv.risk else advice.risk)
    else
      Advice(ManualReview, false, advice.risk)
  }

  /** What folding an investigation onto a ticket changes. */
  function Overlaid(t: TicketData, inv: Investigation): TicketData {
    t.(evidence := OverlaidEvidence(t.evidence, inv),
       diagnosis := OverlaidDiagnosis(t.diagnosis, inv),
       confidence := inv.confidence.GetOrElse(t.confidence),
       advice := OverlaidAdvice(t.advice, inv))
  }

  /** Staff opens the ticket; `investigate` is absent when there is nothing to look up or it failed. */
  function Seen(investigate: TicketData -> Option<Investigation>, t: TicketData): TicketData {
    var inv := investigate(t);
    if inv.Some? then Overlaid(t, inv.value) else t
  }

  function KeyOf(chat: Chat): string {
    if chat.caseId != "" then chat.caseId else SessionKey(chat.sessionId)
  }

  function SessionKey(sessionId: string): string {
    "chat:" + sessionId
  }

  /** The value of the store. */
  datatype Store = Store(tickets: map<string, TicketData>, byCase: map<string, string>)

  const EMPTY_STORE := Store(map[], map[])

  datatype Op =
    | Finalize(chat: Chat, freshId: string)
    | HandoffWithoutContext(sessionId: string, reason: string)
    | Decide(ticketId: string, decision: Decision)
    | Open(ticketId: string)

  /** The rest of the system: action contracts and the investigation. */
  datatype Services = Services(contractOf: Action -> Contract, investigate: TicketData -> Option<Investigation>)

  function ByKey(s: Store, key: string): Option<string> {
    if key in s.byCase && s.byCase[key] in s.tickets then Some(s.byCase[key]) else None
  }

  function Upsert(s: Store, key: string, id: string, t: TicketData): Store {
    Store(s.tickets[id := t], s.byCase[key := id])
  }

  function Apply(sv: Services, s: Store, op: Op): Store {
    match op
    case Finalize(chat, freshId) =>
      var existing := ByKey(s, KeyOf(chat));
      var id := existing.GetOrElse(freshId);
      Upsert(s, KeyOf(chat), id, Finalized(if existing.Some? then s.tickets[id] else BLANK, chat))
    case HandoffWithoutContext(sessionId, reason) =>
      var existing := ByKey(s, SessionKey(sessionId));
      if existing == None then s
      else Upsert(s, SessionKey(sessionId), existing.value, s.tickets[existing.value].(reason := reason))
    case Decide(id, decision) =>
      if id !in s.tickets then s
      else s.(tickets := s.tickets[id := Decided(sv.contractOf, s.tickets[id], decision)])
    case Open(id) =>
      if id !in s.tickets then s
      else s.(tickets := s.tickets[id := Seen(sv.investigate, s.tickets[id])])
  }

  class Ticket {
    const ticketId: string
    var intake: Intake
    var diagnosis: Facts
    var confidence: Confidence
    var evidence: Facts
    var advice: Advice
    var status: Status
    var team: string
    var reason: string
    var log: seq<Entry>
    var contradictions: seq<CustomerClaims.Contradiction>

    constructor (ticketId: string)
      ensures this.ticketId == ticketId && View() == BLANK
    {
      this.ticketId := ticketId;
      intake, diagnosis, confidence, evidence := BLANK.intake, map[], Low, map[];
      advice := Advice(Unset, false, Unrated);
      status, team, reason, log, contradictions := PendingReview, "", "", [], [];
    }

    function View(): TicketData
      reads this
    {
      TicketData(intake, diagnosis, confidence, evidence, advice, status, team, reason, log, contradictions)
    }

    method ApplyChat(chat: Chat)
      modifies this
      ensures View() == Finalized(old(View()), chat)
    {
      intake := IntakeOf(chat);
      diagnosis := chat.diagnosis;
      confidence := ConfidenceOf(chat.diagnosis);
      evidence := StaffEvidence(chat);
      advice := RecommendedAction(chat.caseState);
      status := ResolveStatus(advice, chat.needsMoreInfo);
      reason := chat.reason;
      if chat.contradictions != [] {
        contradictions := chat.contradictions;
      }
    }

    method ApplyDecision(contractOf: Action -> Contract, d: Decision)
      modifies this
      ensures View() == Decided(contractOf, old(View()), d)
    {
      var contract := contractOf(advice.action);
      status := StatusAfter(d.verdict);
      if d.verdict == Approve && contract.team != "" {
        team := contract.team;
      }
      log := log + [EntryOf(contractOf, advice.action, d)];
    }

    method ApplyInvestigation(inv: Investigation)
      modifies this
      ensures View() == Overlaid(old(View()), inv)
    {
      evidence := OverlaidEvidence(evidence, inv);
      if inv.confidence.Some? {
        confidence := inv.confidence.value;
      }
      advice := OverlaidAdvice(advice, inv);
      diagnosis := OverlaidDiagnosis(diagnosis, inv);
    }
  }

  class ChatTicketStore {
    var tickets: map<string, Ticket>
    var byCase: map<string, string>

    ghost predicate Valid()
      reads this, tickets.Values
    {
      && (forall id :: id in tickets ==> tickets[id].ticketId == id)
      && (forall key :: key in byCase ==> byCase[key] in tickets)
    }

    ghost function View(): Store
      reads this, tickets.Values
    {
      Store(map id | id in tickets :: tickets[id].View(), byCase)
    }

    constructor ()
      ensures Valid() && View() == EMPTY_STORE
    {
      tickets, byCase := map[], map[];
    }

    function GetByCaseKey(key: string): (t: Ticket?)
      requires Valid()
      reads this, tickets.Values
      ensures t == null <==> key !in byCase
      ensures t != null ==> t.ticketId == byCase[key] && t.ticketId in tickets && tickets[t.ticketId] == t
    {
      if key in byCase then tickets[byCase[key]] else null
    }

    method UpsertTicket(key: string, t: Ticket)
      requires Valid() && (t.ticketId in tickets ==> tickets[t.ticketId] == t)
      modifies this
      ensures Valid() && tickets == old(tickets)[t.ticketId := t] && byCase == old(byCase)[key := t.ticketId]
    {
      tickets := tickets[t.ticketId := t];
      byCase := byCase[key := t.ticketId];
    }

    /** The stored ticket of a key, or a blank one. */
    method TicketFor(key: string, freshId: string) returns (t: Ticket)
      requires Valid() && freshId !in tickets
      ensures Valid() && (t.ticketId in tickets ==> tickets[t.ticketId] == t)
      ensures match ByKey(View(), key)
              case Some(id) => t.ticketId == id && id in tickets && t.View() == View().tickets[id]
              case None => fresh(t) && t.ticketId == freshId && t.View() == BLANK
    {
      var existing := GetByCaseKey(key);
      if existing == null {
        t := new Ticket(freshId);
      } else {
        t := existing;
      }
    }

    /** Fills a stored or fresh ticket from the chat and stores it under the key. */
    method Fill(key: string, t: Ticket, chat: Chat)
      requires Valid() && (if t.ticketId in tickets then tickets[t.ticketId] == t else t !in tickets.Values)
      modifies this, t
      ensures Valid() && t.ticketId in tickets && tickets[t.ticketId] == t
      ensures View() == Upsert(old(View()), key, t.ticketId, Finalized(old(t.View()), chat))
    {
      t.ApplyChat(chat);
      UpsertTicket(key, t);
    }

    method FinalizeChat(sv: Services, chat: Chat, freshId: string) returns (t: Ticket)
      requires Valid() && freshId !in tickets
      modifies this, tickets.Values
      ensures Valid() && t.ticketId in tickets && tickets[t.ticketId] == t
      ensures View() == Apply(sv, old(View()), Finalize(chat, freshId))
    {
      var key := KeyOf(chat);
      t := TicketFor(key, freshId);
      Fill(key, t, chat);
    }

    method HandoffLost(sv: Services, sessionId: string, reason: string) returns (found: bool)
      requires Valid()
      modifies this, tickets.Values
      ensures Valid() && (found <==> SessionKey(sessionId) in old(byCase))
      ensures View() == Apply(sv, old(View()), HandoffWithoutContext(sessionId, reason))
    {
      var existing := GetByCaseKey(SessionKey(sessionId));
      found := existing != null;
      if found {
        existing.reason := reason;
        UpsertTicket(SessionKey(sessionId), existing);
      }
    }

    method DecideTicket(sv: Services, ticketId: string, decision: Decision) returns (found: bool)
      requires Valid()
      modifies tickets.Values
      ensures Valid() && (found <==> ticketId in tickets)
      ensures View() == Apply(sv, old(View()), Decide(ticketId, decision))
    {
      found := ticketId in tickets;
      if found {
        tickets[ticketId].ApplyDecision(sv.contractOf, decision);
      }
    }

    method OpenTicket(sv: Services, ticketId: string) returns (found: bool)
      requires Valid()
      modifies tickets.Values
      ensures Valid() && (found <==> ticketId in tickets)
      ensures View() == Apply(sv, old(View()), Open(ticketId))
    {
      found := ticketId in tickets;
      if found {
        var inv := sv.investigate(tickets[ticketId].View());
        if inv.Some? {
          tickets[ticketId].ApplyInvestigation(inv.value);
        }
      }
    }
  }
}
