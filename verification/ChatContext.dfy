/** The context of a customer's active case and how a message changes it before anything is looked up. */
module ChatContext {
  import opened CaseTransition
  import opened FieldMerge
  import opened Options
  import Claims = CustomerClaims
  import MessageAnalyzer
  import VndAmount

  datatype Role = Customer | Agent

  datatype Line = Line(role: Role, text: string, timestamp: string)

  /** The diagnosis a reply was made from: its workflow and the cause given to the customer. */
  datatype Diagnosis = Diagnosis(workflow: string, cause: string)

  const NO_EVIDENCE := Claims.Evidence("", None, "")

  /** What the customer claimed, what was verified, and where they differ. */
  datatype Trackers = Trackers(claims: Claims.Tracker, evidence: Claims.Evidence,
                               contradictions: seq<Claims.Contradiction>)

  const NEW_TRACKERS := Trackers(Claims.EMPTY_TRACKER, NO_EVIDENCE, [])

  /** The case-specific part of a context. Trackers are absent until a message needs them. */
  datatype Issue = Issue(
    caseId: string, workflow: string, serviceType: string, missing: seq<string>, info: Info,
    resolvedEntity: Option<string>, diagnosis: Option<Diagnosis>, noMatches: nat, status: CaseStatus,
    trackers: Option<Trackers>)

  const NO_ISSUE := Issue("", "", "", [], map[], None, None, 0, NoStatus, None)

  /** The value of a context: the issue, and the conversation that outlives it. */
  datatype Context = Context(issue: Issue, transcript: seq<Line>, problem: string, emotion: string, subject: string)

  const NEW_CONTEXT := Context(NO_ISSUE, [], "", "neutral", "")

  /** What the analyzer made of a message. */
  datatype Analysis = Analysis(core: MessageAnalyzer.Analysis, extracted: Info, emotion: string)

  /** What the turn uses of the rest of the system. `registry` holds the registry's workflow names and
      `unknown` the analyzer's placeholder for no workflow. */
  datatype Env = Env(
    names: WorkflowNames, registry: set<string>, unknown: string, schema: Schema,
    redact: string -> string,
    contradict: (map<string, VndAmount.Claimed>, Claims.Evidence) -> seq<Claims.Contradiction>)

  // ---- Steps on values ----

  /** A redacted line is recorded unless the text is empty. */
  function Recorded(env: Env, transcript: seq<Line>, role: Role, text: string, now: string): seq<Line> {
    if text == "" then transcript else transcript + [Line(role, env.redact(text), now)]
  }

  /** The customer's line is recorded and the first problem and identity are kept. */
  function Received(env: Env, c: Context, message: string, subject: string, now: string): Context {
    c.(transcript := Recorded(env, c.transcript, Customer, message, now),
       problem := if c.problem == "" then env.redact(message) else c.problem,
       subject := if subject != "" then subject else c.subject)
  }

  /** The conversation goes on with nothing of the old issue. */
  function Fresh(env: Env, c: Context, message: string): Context {
    c.(issue := NO_ISSUE.(trackers := Some(NEW_TRACKERS)), problem := env.redact(message))
  }

  function ActiveCaseOf(i: Issue): ActiveCase {
    ActiveCase(i.workflow, i.status, i.caseId)
  }

  predicate HasPriorState(i: Issue) {
    i.workflow != "" || i.caseId != "" || i.info != map[] || i.noMatches > 0 || i.diagnosis.Some?
  }

  predicate StartsOrSwitches(t: MessageType) {
    t == NewComplaint || t == SwitchWorkflow
  }

  function Transit(env: Env, i: Issue, a: Analysis): Transition {
    Decide(env.names, a.core.messageType, a.core.hint, ActiveCaseOf(i))
  }

  predicate IsNewIssue(env: Env, i: Issue, a: Analysis) {
    var t := Transit(env, i, a);
    (t.kind == NewCase || t.kind == WorkflowSwitch) && !t.reuse && HasPriorState(i)
  }

  /** The older test for a switch, made beside the transition decision. */
  predicate RaisesOther(env: Env, i: Issue, a: Analysis) {
    && i.workflow != "" && a.core.hint in env.registry && a.core.hint != i.workflow
    && StartsOrSwitches(a.core.messageType)
  }

  predicate Resets(env: Env, i: Issue, a: Analysis) {
    IsNewIssue(env, i, a) || RaisesOther(env, i, a)
  }

  function ClaimMerges(a: Analysis, now: string): seq<Claims.Merge> {
    Claims.ExtractedMerges(a.extracted, a.core.correction, now, 0)
  }

  /** The message's fields and claims are added, a correction drops the diagnosis and the evidence bound
      to it, and answered questions are struck out. */
  ghost function Absorbed(env: Env, i: Issue, a: Analysis, now: string): Issue {
    var info := Merged(env.schema.keys, i.info, a.extracted);
    var was := i.trackers.GetOrElse(NEW_TRACKERS);
    var claims := Claims.ApplyAll(was.claims, ClaimMerges(a, now));
    var stale := a.core.correction && i.diagnosis.Some?;
    i.(info := info, missing := Open(env.schema, i.missing, info),
       diagnosis := if stale then None else i.diagnosis,
       trackers := Some(if stale then Trackers(claims, NO_EVIDENCE, []) else was.(claims := claims)))
  }

  /** The second guard: the hint still differs from the active workflow. */
  predicate Mismatch(env: Env, i: Issue, a: Analysis) {
    && i.workflow != "" && a.core.hint != i.workflow && a.core.hint != env.unknown
    && !a.core.belongs && StartsOrSwitches(a.core.messageType)
  }

  /** The active workflow takes the place of the message's hint. */
  function Governed(i: Issue, a: Analysis): Analysis {
    if i.workflow != "" && !StartsOrSwitches(a.core.messageType) then a.(core := a.core.(hint := i.workflow)) else a
  }

  /** A message understood: the context and the analysis that the rest of the turn works with. */
  ghost function Understood(env: Env, c: Context, a: Analysis, message: string, now: string): (Context, Analysis) {
    var c1 := if Resets(env, c.issue, a) then Fresh(env, c, message) else c;
    var issue := Absorbed(env, c1.issue, a, now);
    var a1 := a.(extracted := Completed(env.schema.keys, a.extracted, issue.info));
    var c2 := if Mismatch(env, issue, a1) then Fresh(env, c1, message) else c1.(issue := issue);
    var a2 := if Mismatch(env, issue, a1) then a1 else Governed(issue, a1);
    (c2.(emotion := if a.emotion != "" then a.emotion else c2.emotion), a2)
  }

  // ---- The guards ----

  /** With an active workflow, every new complaint and every switch is a new issue. */
  lemma StarterIsNewIssue(env: Env, i: Issue, a: Analysis)
    requires i.workflow != "" && StartsOrSwitches(a.core.messageType)
    ensures IsNewIssue(env, i, a)
  {
    StarterNeverContinues(a.core.messageType, Norm(env.names, a.core.hint), Norm(env.names, i.workflow),
                          ActiveCaseOf(i));
  }

  /** The older switch test never fires on its own. */
  lemma SwitchTestIsRedundant(env: Env, i: Issue, a: Analysis)
    ensures Resets(env, i, a) <==> IsNewIssue(env, i, a)
  {
    if RaisesOther(env, i, a) {
      StarterIsNewIssue(env, i, a);
    }
  }

  /** The issue that a message's fields are added to. */
  function Basis(env: Env, i: Issue, a: Analysis): Issue {
    if Resets(env, i, a) then NO_ISSUE.(trackers := Some(NEW_TRACKERS)) else i
  }

  lemma BasisHasNoRival(env: Env, i: Issue, a: Analysis)
    ensures Basis(env, i, a).workflow == "" || !StartsOrSwitches(a.core.messageType)
  {
    if i.workflow != "" && StartsOrSwitches(a.core.messageType) {
      StarterIsNewIssue(env, i, a);
    }
  }

  /** The second guard never fires: whatever the analyzer says, a message of a kind it looks at has
      already dropped the active case. */
  lemma SecondGuardNeverFires(env: Env, c: Context, a: Analysis, message: string, now: string)
    ensures
      var c1 := if Resets(env, c.issue, a) then Fresh(env, c, message) else c;
      var issue := Absorbed(env, c1.issue, a, now);
      !Mismatch(env, issue, a.(extracted := Completed(env.schema.keys, a.extracted, issue.info)))
  {
    BasisHasNoRival(env, c.issue, a);
  }

  /** What a message does to the context, without the guard that never fires. */
  lemma UnderstoodIs(env: Env, c: Context, a: Analysis, message: string, now: string)
    ensures
      var c1 := if Resets(env, c.issue, a) then Fresh(env, c, message) else c;
      var issue := Absorbed(env, c1.issue, a, now);
      var a1 := a.(extracted := Completed(env.schema.keys, a.extracted, issue.info));
      Understood(env, c, a, message, now) ==
        (c1.(issue := issue, emotion := if a.emotion != "" then a.emotion else c1.emotion), Governed(issue, a1))
  {
    SecondGuardNeverFires(env, c, a, message, now);
  }

  /** Afterwards there is no active workflow or the message is handled under it. */
  lemma ActiveWorkflowGoverns(env: Env, c: Context, a: Analysis, message: string, now: string)
    ensures
      var (c', a') := Understood(env, c, a, message, now);
      c'.issue.workflow == "" || a'.core.hint == c'.issue.workflow
  {
    var issue := Absorbed(env, Basis(env, c.issue, a), a, now);
    var a1 := a.(extracted := Completed(env.schema.keys, a.extracted, issue.info));
    assert issue.workflow == "" || Governed(issue, a1).core.hint == issue.workflow by {
      BasisHasNoRival(env, c.issue, a);
    }
    UnderstoodIs(env, c, a, message, now);
  }

  // ---- The object ----

  class ActiveCaseContext {
    var caseId: string
    var workflow: string
    var serviceType: string
    var missing: seq<string>
    var info: Info
    var resolvedEntity: Option<string>
    var diagnosis: Option<Diagnosis>
    var noMatches: nat
    var status: CaseStatus
    var trackers: Option<Trackers>
    var transcript: seq<Line>
    var problem: string
    var emotion: string
    var subject: string

    constructor (issue: Issue, transcript: seq<Line>, problem: string, emotion: string, subject: string)
      ensures View() == Context(issue, transcript, problem, emotion, subject)
    {
      caseId, workflow, serviceType := issue.caseId, issue.workflow, issue.serviceType;
      missing, info := issue.missing, issue.info;
      resolvedEntity, diagnosis, noMatches := issue.resolvedEntity, issue.diagnosis, issue.noMatches;
      status, trackers := issue.status, issue.trackers;
      this.transcript, this.problem, this.emotion, this.subject := transcript, problem, emotion, subject;
    }

    function IssueView(): Issue
      reads this
    {
      Issue(caseId, workflow, serviceType, missing, info, resolvedEntity, diagnosis, noMatches, status, trackers)
    }

    function View(): Context
      reads this
    {
      Context(IssueView(), transcript, problem, emotion, subject)
    }

    method Receive(env: Env, message: string, subjectType: string, now: string)
      modifies this
      ensures View() == Received(env, old(View()), message, subjectType, now)
    {
      if message != "" {
        transcript := transcript + [Line(Customer, env.redact(message), now)];
      }
      if problem == "" {
        problem := env.redact(message);
      }
      if subjectType != "" {
        subject := subjectType;
      }
    }

    method StartFresh(env: Env, message: string) returns (c: ActiveCaseContext)
      ensures fresh(c) && c.View() == Fresh(env, View(), message)
    {
      c := new ActiveCaseContext(NO_ISSUE.(trackers := Some(NEW_TRACKERS)), transcript, env.redact(message), emotion,
                                 subject);
    }

    method Absorb(env: Env, a: Analysis, now: string)
      modifies this`info, this`missing, this`diagnosis, this`trackers
      ensures IssueView() == Absorbed(env, old(IssueView()), a, now)
    {
      info := MergeExtracted(env.schema, info, a.extracted);
      var t := trackers.GetOrElse(NEW_TRACKERS);
      t := t.(claims := Claims.ApplyAll(t.claims, ClaimMerges(a, now)));
      if a.core.correction && diagnosis.Some? {
        diagnosis := None;
        t := Trackers(t.claims, NO_EVIDENCE, []);
      }
      trackers := Some(t);
      missing := Recalculate(env.schema, missing, info);
    }

    /** The message is added and handled under the active workflow. */
    method TakeIn(env: Env, a: Analysis, now: string) returns (a': Analysis)
      modifies this
      ensures
        var issue := Absorbed(env, old(IssueView()), a, now);
        && View() == old(View()).(issue := issue, emotion := if a.emotion != "" then a.emotion else old(emotion))
        && a' == Governed(issue, a.(extracted := Completed(env.schema.keys, a.extracted, issue.info)))
    {
      Absorb(env, a, now);
      var extracted := CompleteFrom(env.schema, a.extracted, info);
      a' := Governed(IssueView(), a.(extracted := extracted));
      if a.emotion != "" {
        emotion := a.emotion;
      }
    }

    /** Everything between the analysis and the first reply. The branch of the second guard is left out: it is
        never taken. */
    method Understand(env: Env, a: Analysis, message: string, now: string) returns (c: ActiveCaseContext, a': Analysis)
      modifies this
      ensures (c.View(), a') == Understood(env, old(View()), a, message, now)
      ensures if Resets(env, old(IssueView()), a) then fresh(c) && View() == old(View()) else c == this
    {
      UnderstoodIs(env, View(), a, message, now);
      if Resets(env, IssueView(), a) {
        c := StartFresh(env, message);
      } else {
        c := this;
      }
      a' := c.TakeIn(env, a, now);
    }
  }
}
