/** How the latest message relates to the active case. */
module CaseTransition {
  import opened Text

  /** The analyzer's message types, and the two further ones that the transition rules name. */
  datatype MessageType =
    | NewComplaint
    | FollowUp
    | SwitchWorkflow
    | ProvideMissingInfo
    | CorrectPreviousInfo
    | AskStatus
    | AskEta
    | AskWhatToDo
    | AskWhereMoneyIs
    | ProvideSensitiveInfo
    | Greeting
    | ThankYou
    | OutOfScope
    | Unknown
    | Acknowledging
    | CorrectionAck

  /** The outcome of the last evidence lookup of a case; `NoStatus` before the first one. */
  datatype CaseStatus =
    | NoStatus
    | Resolved
    | MultipleCandidates
    | NoMatch
    | AmountMismatch
    | NeedMoreInfo
    | InvalidSession
    | OwnershipMismatch
    | EvidenceError
    | NoIssueFound
    | Closed

  datatype Kind = SameCase | WorkflowSwitch | NewCase | Acknowledgement | OffTopic

  datatype Transition = Transition(kind: Kind, target: string, reuse: bool)

  datatype ActiveCase = ActiveCase(workflow: string, status: CaseStatus, caseId: string)

  /** A set of workflow names, none of them empty. */
  type Workflows = k: set<string> | "" !in k witness {}

  const KNOWN_WORKFLOWS: Workflows :=
    {"wallet_topup", "fraud_account_lock", "train_ticket", "utility_bill", "merchant_settlement_delay"}

  /** The workflows that can be diagnosed, and how a name is freed of surrounding whitespace. */
  datatype WorkflowNames = WorkflowNames(known: Workflows, strip: string -> string)

  const WORKFLOW_NAMES := WorkflowNames(KNOWN_WORKFLOWS, name => Strip(PYTHON_WHITESPACE, name))

  /** The stripped name, or nothing when it is not a known workflow. */
  function Norm(w: WorkflowNames, workflow: string): (r: string)
    ensures r == "" || r in w.known
  {
    if w.strip(workflow) in w.known then w.strip(workflow) else ""
  }

  predicate IsNonCase(t: MessageType) {
    t == Greeting || t == OutOfScope
  }

  predicate IsAck(t: MessageType) {
    t == Acknowledging || t == CorrectionAck
  }

  predicate IsTerminal(s: CaseStatus) {
    s == Resolved || s == NoIssueFound || s == NoMatch || s == Closed || s == EvidenceError
  }

  predicate HasActive(active: ActiveCase) {
    active.workflow != "" || active.caseId != ""
  }

  /** Both workflows are known and they are not the same. */
  predicate Differ(latest: string, current: string) {
    latest != "" && current != "" && latest != current
  }

  /** The decision from the two workflow names, each known or empty. */
  function DecideOn(t: MessageType, latest: string, current: string, active: ActiveCase): Transition {
    if IsNonCase(t) then Transition(OffTopic, "", false)
    else if IsAck(t) then Transition(Acknowledgement, current, true)
    else if !HasActive(active) then Transition(NewCase, latest, false)
    else if t == NewComplaint then
      if Differ(latest, current) then Transition(WorkflowSwitch, latest, false)
      else if IsTerminal(active.status) then Transition(NewCase, latest, false)
      else if latest != "" && latest == current then Transition(NewCase, latest, false)
      else Transition(NewCase, "", false)
    else if t == SwitchWorkflow || Differ(latest, current) then Transition(WorkflowSwitch, latest, false)
    else Transition(SameCase, if current != "" then current else latest, true)
  }

  function Decide(w: WorkflowNames, t: MessageType, hint: string, active: ActiveCase): Transition {
    DecideOn(t, Norm(w, hint), Norm(w, active.workflow), active)
  }

  /** A new complaint or an explicit switch never continues a case. */
  lemma StarterNeverContinues(t: MessageType, latest: string, current: string, active: ActiveCase)
    requires t == NewComplaint || t == SwitchWorkflow
    ensures var d := DecideOn(t, latest, current, active);
            !d.reuse && d.kind in {NewCase, WorkflowSwitch}
  {
  }

  /** Which messages may use the diagnosis of the active case. */
  predicate Continues(w: WorkflowNames, t: MessageType, hint: string, active: ActiveCase) {
    || IsAck(t)
    || (&& HasActive(active)
        && t !in {Greeting, OutOfScope, NewComplaint, SwitchWorkflow}
        && !Differ(Norm(w, hint), Norm(w, active.workflow)))
  }

  /** A diagnosis is reused exactly by messages that continue the case, and only under the workflow it
      was made for. */
  lemma ReuseExactlyWhen(w: WorkflowNames, t: MessageType, hint: string, active: ActiveCase)
    ensures
      var d := Decide(w, t, hint, active);
      var current := Norm(w, active.workflow);
      && (d.reuse <==> Continues(w, t, hint, active))
      && (d.reuse <==> d.kind in {SameCase, Acknowledgement})
      && (d.reuse && current != "" ==> d.target == current)
      && (d.target == "" || d.target in w.known)
  {
  }

  /** The decision in full: off-topic messages and acknowledgements aside, there is a new case without an active one or
      for a complaint about no other known workflow, a switch for one about another and for any message that names
      another or switches explicitly, and otherwise the case goes on. */
  lemma DecidedExactlyWhen(w: WorkflowNames, t: MessageType, hint: string, active: ActiveCase)
    ensures
      var d := Decide(w, t, hint, active);
      var latest, current := Norm(w, hint), Norm(w, active.workflow);
      var other := latest != "" && current != "" && latest != current;
      var aside := t in {Greeting, OutOfScope, Acknowledging, CorrectionAck};
      var has := active.workflow != "" || active.caseId != "";
      && (d.kind == OffTopic <==> t in {Greeting, OutOfScope})
      && (d.kind == Acknowledgement <==> t in {Acknowledging, CorrectionAck})
      && (d.kind == NewCase <==> !aside && (!has || (t == NewComplaint && !other)))
      && (d.kind == WorkflowSwitch <==> !aside && has && (t == SwitchWorkflow || other))
      && (d.kind == SameCase <==> !aside && has && t !in {NewComplaint, SwitchWorkflow} && !other)
      && (d.kind == WorkflowSwitch || (d.kind == NewCase && !has) ==> d.target == latest)
      && (d.kind == SameCase ==> d.target == if current != "" then current else latest)
      && (d.kind == Acknowledgement ==> d.target == current)
      && (d.kind == OffTopic ==> d.target == "")
      && (d.kind == NewCase && has ==>
            d.target == if current != "" || active.status in {Resolved, NoIssueFound, NoMatch, Closed, EvidenceError}
                        then latest else "")
  {
  }

  /** The outcome of the previous case never keeps a new complaint from starting afresh: only its target
      can depend on the status, and only while the new workflow is known and the active one is not. */
  lemma FinishedCaseNeverBlocks(w: WorkflowNames, hint: string, active: ActiveCase, other: CaseStatus)
    ensures
      var d := Decide(w, NewComplaint, hint, active);
      var d' := Decide(w, NewComplaint, hint, active.(status := other));
      && !d.reuse && d.kind == d'.kind
      && (d.kind == WorkflowSwitch <==>
          HasActive(active) && Differ(Norm(w, hint), Norm(w, active.workflow)))
      && (d.target != d'.target ==>
          && IsTerminal(active.status) != IsTerminal(other)
          && Norm(w, hint) != "" && Norm(w, active.workflow) == "")
  {
  }
}
