/** Where every turn ends and what it leaves stored, told from the stored context and the message alone. */
module ChatOutcomes {
  import opened CaseTransition
  import opened ChatContext
  import opened ChatRuns
  import opened ChatTurn
  import opened FieldMerge
  import opened Options
  import opened VndAmount
  import Claims = CustomerClaims

  function KindOf(m: Message): MessageType {
    m.analysis.core.messageType
  }

  /** The message drops the stored issue: something is stored, the message is about a case, and there is no active
      case to go on with, or it starts or switches one, or it names another known workflow. */
  predicate Drops(env: Env, i: Issue, a: Analysis) {
    var kind := a.core.messageType;
    && (i.workflow != "" || i.caseId != "" || i.info != map[] || i.noMatches > 0 || i.diagnosis != None)
    && kind !in {Greeting, OutOfScope, Acknowledging, CorrectionAck}
    && (|| (i.workflow == "" && i.caseId == "") || kind == NewComplaint || kind == SwitchWorkflow
        || Differ(Norm(env.names, a.core.hint), Norm(env.names, i.workflow)))
  }

  lemma ResetsExactlyWhen(env: Env, i: Issue, a: Analysis)
    ensures Resets(env, i, a) <==> Drops(env, i, a)
  {
    if HasPriorState(i) {
      IssueSurvivesExactlyWhen(env, i, a);
    }
  }

  // ---- Corrections ----

  /** A stored diagnosis survives a message exactly when that neither drops the issue nor corrects it. When it is
      dropped, the evidence bound to it and the contradictions go with it; otherwise they stay. */
  lemma DiagnosisSurvivesExactlyWhen(env: Env, c: Context, a: Analysis, message: string, now: string)
    ensures
      var i := Understood(env, c, a, message, now).0.issue;
      var was := c.issue.trackers.GetOrElse(NEW_TRACKERS);
      && i.diagnosis == (if Drops(env, c.issue, a) || a.core.correction then None else c.issue.diagnosis)
      && i.trackers.Some?
      && var stale := Drops(env, c.issue, a) || (a.core.correction && c.issue.diagnosis.Some?);
         && i.trackers.value.evidence == (if stale then NO_EVIDENCE else was.evidence)
         && i.trackers.value.contradictions == (if stale then [] else was.contradictions)
  {
    ResetsExactlyWhen(env, c.issue, a);
    UnderstoodIs(env, c, a, message, now);
  }

  // ---- Exits ----

  /** The message gets as far as the lookup of evidence. */
  predicate IsLookedUp(m: Message) {
    KindOf(m) !in {Greeting, OutOfScope, ThankYou, ProvideSensitiveInfo} && !m.staffRequest && !m.refused
  }

  /** What the lookup contradicts: the claims against the evidence it binds, or else what was found before. */
  function ContradictedBy(env: Env, t: Trackers, r: Lookup): seq<Claims.Contradiction> {
    if r.status in {Resolved, AmountMismatch} && r.entityId != ""
    then env.contradict(t.claims.latest, Claims.Evidence(r.entityId, r.amount, r.bank)) else t.contradictions
  }

  ghost predicate NamesAmount(names: ChatTurn.Names, cs: seq<Claims.Contradiction>) {
    exists k :: 0 <= k < |cs| && cs[k].field == names.amount
  }

  /** The claimed amount is at odds with a verified record. */
  ghost predicate IsConflict(env: Env, names: ChatTurn.Names, m: Message, t: Trackers) {
    || m.lookup.status == AmountMismatch
    || (&& m.lookup.status == Resolved && Known(m.analysis.extracted, names.amount) != Absent
        && NamesAmount(names, ContradictedBy(env, t, m.lookup)))
  }

  ghost predicate GivesSearchable(names: ChatTurn.Names, extracted: Info) {
    exists k :: 0 <= k < |names.searchable| && Known(extracted, names.searchable[k]) != Absent
  }

  /** Under a known workflow the lookup found nothing, or an issue that was not found before is repeated. */
  ghost predicate IsUnfound(env: Env, names: ChatTurn.Names, i: Issue, m: Message, extracted: Info) {
    var drops := Drops(env, i, m.analysis);
    && ((i.workflow != "" && !drops) || m.analysis.core.hint !in {"", env.unknown})
    && (|| m.lookup.status == NoMatch
        || (&& m.lookup.status == NeedMoreInfo && m.lookup.entityId == "" && KindOf(m) != NewComplaint
            && i.noMatches >= 1 && !drops && !GivesSearchable(names, extracted)))
  }

  /** The graph is run for complaints, and for other messages that do not just ask while there is no case. */
  predicate Opens(env: Env, i: Issue, m: Message) {
    || KindOf(m) == NewComplaint
    || (KindOf(m) !in {FollowUp, AskStatus, AskEta, AskWhatToDo} && (i.caseId == "" || Drops(env, i, m.analysis)))
  }

  /** No exit before the graph answers the message. */
  ghost predicate IsAnswerable(env: Env, names: ChatTurn.Names, i: Issue, m: Message, t: Trackers, extracted: Info) {
    && IsLookedUp(m) && !IsConflict(env, names, m, t) && !IsUnfound(env, names, i, m, extracted)
    && !(m.lookup.status == MultipleCandidates && m.lookup.hasResponse)
  }

  /** What understanding keeps of the message and the stored issue. */
  lemma UnderstoodAs(env: Env, c: Context, a: Analysis, message: string, now: string)
    ensures
      var (c', a') := Understood(env, c, a, message, now);
      var drops := Drops(env, c.issue, a);
      && a'.core.messageType == a.core.messageType
      && a'.core.hint == (if c.issue.workflow != "" && !drops then c'.issue.workflow else a.core.hint)
      && c'.issue.workflow == (if drops then "" else c.issue.workflow)
      && c'.issue.caseId == (if drops then "" else c.issue.caseId)
      && c'.issue.serviceType == (if drops then "" else c.issue.serviceType)
      && c'.issue.resolvedEntity == (if drops then None else c.issue.resolvedEntity)
      && c'.issue.status == (if drops then NoStatus else c.issue.status)
      && c'.issue.noMatches == (if drops then 0 else c.issue.noMatches)
      && c'.issue.trackers.Some?
  {
    ResetsExactlyWhen(env, c.issue, a);
    UnderstoodIs(env, c, a, message, now);
    ActiveWorkflowGoverns(env, c, a, message, now);
  }

  /** The open questions after a message are those of the issue it goes on with that no known field answers now; what
      is known is what the message gives, or else what the issue stored. */
  lemma QuestionsAfter(env: Env, c: Context, a: Analysis, message: string, now: string, key: string)
    ensures
      var i, drops := Understood(env, c, a, message, now).0.issue, Drops(env, c.issue, a);
      && i.missing == Open(env.schema, if drops then [] else c.issue.missing, i.info)
      && Known(i.info, key) ==
         if key in env.schema.keys && Known(a.extracted, key) != Absent then Known(a.extracted, key)
         else if drops then Absent else Known(c.issue.info, key)
  {
    ResetsExactlyWhen(env, c.issue, a);
    UnderstoodIs(env, c, a, message, now);
    MergedAt(env.schema.keys, if Drops(env, c.issue, a) then map[] else c.issue.info, a.extracted, key);
  }

  lemma ConflictOf(env: Env, names: ChatTurn.Names, i: Issue, m: Message)
    requires i.trackers.Some?
    ensures
      IsConflict(env, names, m, i.trackers.value) <==>
        || m.lookup.status == AmountMismatch
        || (&& m.lookup.status == Resolved && AmountDiffers(names, Looked(env, names, i, m.lookup))
            && ClaimsAmount(names, m))
  {
  }

  lemma UnfoundOf(env: Env, names: ChatTurn.Names, i: Issue, a: Analysis, m: Message, stored: Issue)
    requires a.core.messageType == KindOf(m)
    requires i.workflow == if Drops(env, stored, m.analysis) then "" else stored.workflow
    requires i.noMatches == if Drops(env, stored, m.analysis) then 0 else stored.noMatches
    requires a.core.hint == if i.workflow != "" then i.workflow else m.analysis.core.hint
    ensures IsNotFound(env, names, Looked(env, names, i, m.lookup), a, m.lookup) <==>
              IsUnfound(env, names, stored, m, a.extracted)
  {
  }

  /** The exits before the lookup. */
  lemma EarlyExits(env: Env, names: ChatTurn.Names, i: Issue, a: Analysis, claimed: bool, m: Message)
    requires a.core.messageType == KindOf(m)
    ensures
      var exit := ExitOf(env, names, i, a, claimed, m);
      && (exit == Thanked <==> KindOf(m) == ThankYou && i.workflow != "")
      && (exit == OffTopicReply <==> KindOf(m) in {Greeting, OutOfScope} || (KindOf(m) == ThankYou && i.workflow == ""))
      && (exit == StaffRequested <==> KindOf(m) !in {Greeting, OutOfScope, ThankYou} && m.staffRequest)
      && (exit == SensitiveWarned <==> KindOf(m) == ProvideSensitiveInfo && !m.staffRequest)
      && (exit == Refused <==>
          KindOf(m) !in {Greeting, OutOfScope, ThankYou, ProvideSensitiveInfo} && !m.staffRequest && m.refused)
  {
  }

  lemma LateExits(env: Env, names: ChatTurn.Names, i: Issue, a: Analysis, claimed: bool, m: Message, conflict: bool,
                  unfound: bool, opens: bool)
    requires a.core.messageType == KindOf(m)
    requires
      conflict <==>
        || m.lookup.status == AmountMismatch
        || (m.lookup.status == Resolved && AmountDiffers(names, Looked(env, names, i, m.lookup)) && claimed)
    requires unfound <==> IsNotFound(env, names, Looked(env, names, i, m.lookup), a, m.lookup)
    requires IsLookedUp(m) ==>
      (opens <==> KindOf(m) == NewComplaint || (KindOf(m) !in {FollowUp, AskStatus, AskEta, AskWhatToDo} && i.caseId == ""))
    ensures
      var exit := ExitOf(env, names, i, a, claimed, m);
      var rest := IsLookedUp(m) && !conflict && !unfound && !(m.lookup.status == MultipleCandidates && m.lookup.hasResponse);
      && (exit == AmountConflict <==> IsLookedUp(m) && conflict)
      && (exit == NotFound <==> IsLookedUp(m) && unfound)
      && (exit == ManyFound <==> IsLookedUp(m) && m.lookup.status == MultipleCandidates && m.lookup.hasResponse)
      && (exit == CaseOpened <==> rest && opens && m.graph.Some?)
      && (exit == GraphFailed <==> rest && opens && m.graph.None?)
      && (exit == Answered <==> rest && !opens)
  {
  }

  /** Before the lookup a turn ends by the kind of the message, the request for staff and the refusal; a thank-you
      is acknowledged exactly within a case that it does not drop. */
  lemma EndsEarlyExactlyWhen(env: Env, names: ChatTurn.Names, c: Context, m: Message)
    ensures
      var exit := CourseOf(env, names, c, m).exit;
      var thanked := KindOf(m) == ThankYou && c.issue.workflow != "" && !Drops(env, c.issue, m.analysis);
      && (exit == Thanked <==> thanked)
      && (exit == OffTopicReply <==> KindOf(m) in {Greeting, OutOfScope} || (KindOf(m) == ThankYou && !thanked))
      && (exit == StaffRequested <==> KindOf(m) !in {Greeting, OutOfScope, ThankYou} && m.staffRequest)
      && (exit == SensitiveWarned <==> KindOf(m) == ProvideSensitiveInfo && !m.staffRequest)
      && (exit == Refused <==>
          KindOf(m) !in {Greeting, OutOfScope, ThankYou, ProvideSensitiveInfo} && !m.staffRequest && m.refused)
  {
    UnderstoodAs(env, Received(env, c, m.text, m.subject, m.now), m.analysis, m.text, m.now);
    var t := CourseOf(env, names, c, m);
    EarlyExits(env, names, t.understood.issue, t.analysis, ClaimsAmount(names, m), m);
  }

  /** A turn that is looked up ends in a conflict of amounts, as not found, with several records to choose from, or
      else by the graph exactly when it opens a case, which fails exactly when the graph returns none. */
  lemma EndsExactlyWhen(env: Env, names: ChatTurn.Names, c: Context, m: Message)
    ensures
      var t := CourseOf(env, names, c, m);
      && t.understood.issue.trackers.Some?
      && var trackers := t.understood.issue.trackers.value;
         var rest := IsAnswerable(env, names, c.issue, m, trackers, t.analysis.extracted);
         && (t.exit == AmountConflict <==> IsLookedUp(m) && IsConflict(env, names, m, trackers))
         && (t.exit == NotFound <==> IsLookedUp(m) && IsUnfound(env, names, c.issue, m, t.analysis.extracted))
         && (t.exit == ManyFound <==> IsLookedUp(m) && m.lookup.status == MultipleCandidates && m.lookup.hasResponse)
         && (t.exit == CaseOpened <==> rest && Opens(env, c.issue, m) && m.graph.Some?)
         && (t.exit == GraphFailed <==> rest && Opens(env, c.issue, m) && m.graph.None?)
         && (t.exit == Answered <==> rest && !Opens(env, c.issue, m))
  {
    UnderstoodAs(env, Received(env, c, m.text, m.subject, m.now), m.analysis, m.text, m.now);
    var t := CourseOf(env, names, c, m);
    var i := t.understood.issue;
    ConflictOf(env, names, i, m);
    UnfoundOf(env, names, i, t.analysis, m, c.issue);
    LateExits(env, names, i, t.analysis, ClaimsAmount(names, m), m, IsConflict(env, names, m, i.trackers.value),
              IsUnfound(env, names, c.issue, m, t.analysis.extracted), Opens(env, c.issue, m));
  }

  /** So a new complaint that was verified without a conflict always reaches the graph: a case is opened exactly when
      the graph returned one. */
  lemma VerifiedComplaintOpens(env: Env, names: ChatTurn.Names, c: Context, m: Message)
    requires KindOf(m) == NewComplaint && !m.staffRequest && !m.refused && m.lookup.status == Resolved
    requires
      var u := CourseOf(env, names, c, m).understood.issue;
      u.trackers.Some? ==> !IsConflict(env, names, m, u.trackers.value)
    ensures CourseOf(env, names, c, m).exit == if m.graph.Some? then CaseOpened else GraphFailed
  {
    EndsExactlyWhen(env, names, c, m);
  }

  // ---- What a turn leaves ----

  /** The turn puts the case that the graph opened in place of the issue. */
  predicate Replaces(names: ChatTurn.Names, exit: Exit, m: Message) {
    exit == CaseOpened && m.graph.Some? && m.graph.value.caseId != "" && m.graph.value.caseId != names.pending
  }

  /** The turn shows a diagnosis that is kept: that of the case it opens, or one with a cause for a verified record. */
  predicate Shows(names: ChatTurn.Names, exit: Exit, m: Message) {
    || Replaces(names, exit, m)
    || (exit == Answered && m.lookup.status == Resolved && m.shown.Some? && m.shown.value.cause != "")
  }

  lemma {:induction false} RemoveFirstRemovesOne(s: seq<string>, x: string)
    ensures multiset(RemoveFirst(s, x)) == multiset(s) - multiset{x}
  {
    if s != [] {
      assert s == [s[0]] + s[1..];
      if s[0] != x {
        RemoveFirstRemovesOne(s[1..], x);
      }
    }
  }

  lemma IssueLeft(env: Env, names: ChatTurn.Names, i: Issue, m: Message, exit: Exit)
    requires (exit == CaseOpened ==> m.graph.Some?) && i.trackers.Some?
    ensures
      var f := IssueAt(env, names, i, m, exit);
      var replaced := Replaces(names, exit, m);
      var looked := exit !in {Thanked, OffTopicReply, StaffRequested, SensitiveWarned, Refused};
      && f.caseId == (if replaced then m.graph.value.caseId else i.caseId)
      && f.workflow == (if replaced then m.graph.value.workflow else i.workflow)
      && f.serviceType == (if replaced then m.graph.value.serviceType else i.serviceType)
      && f.diagnosis == (if Shows(names, exit, m) then m.shown else if exit == AmountConflict then None else i.diagnosis)
      && f.status == (if replaced then NoStatus else if looked then m.lookup.status else i.status)
      && f.resolvedEntity == (if looked && m.lookup.entityId != "" then Some(m.lookup.entityId) else i.resolvedEntity)
      && f.noMatches == (if replaced then 0
                         else if exit == NotFound then i.noMatches + 1
                         else if exit in {GraphFailed, CaseOpened, Answered} && m.lookup.status == Resolved then 0
                         else i.noMatches)
  {
  }

  /** The case, its diagnosis and its lookup after a turn, by where it ended. */
  lemma TurnLeaves(env: Env, names: ChatTurn.Names, c: Context, m: Message)
    ensures
      var t := CourseOf(env, names, c, m);
      var f, replaced, drops := t.final.issue, Replaces(names, t.exit, m), Drops(env, c.issue, m.analysis);
      var looked := IsLookedUp(m);
      && f.caseId == (if replaced then m.graph.value.caseId else if drops then "" else c.issue.caseId)
      && f.workflow == (if replaced then m.graph.value.workflow else if drops then "" else c.issue.workflow)
      && f.serviceType == (if replaced then m.graph.value.serviceType else if drops then "" else c.issue.serviceType)
      && f.diagnosis == (if Shows(names, t.exit, m) then m.shown
                         else if t.exit == AmountConflict || drops || m.analysis.core.correction then None
                         else c.issue.diagnosis)
      && f.status == (if replaced then NoStatus else if looked then m.lookup.status
                      else if drops then NoStatus else c.issue.status)
      && f.resolvedEntity == (if looked && m.lookup.entityId != "" then Some(m.lookup.entityId)
                              else if drops then None else c.issue.resolvedEntity)
  {
    var r := Received(env, c, m.text, m.subject, m.now);
    UnderstoodAs(env, r, m.analysis, m.text, m.now);
    DiagnosisSurvivesExactlyWhen(env, r, m.analysis, m.text, m.now);
    EndsEarlyExactlyWhen(env, names, c, m);
    var t := CourseOf(env, names, c, m);
    FinalIssue(env, names, t.understood, t.analysis, ClaimsAmount(names, m), m);
    IssueLeft(env, names, t.understood.issue, m, t.exit);
  }

  lemma TrackersLeft(env: Env, names: ChatTurn.Names, i: Issue, m: Message, exit: Exit)
    requires (exit == CaseOpened ==> m.graph.Some?) && i.trackers.Some?
    ensures
      var f, was := IssueAt(env, names, i, m, exit), i.trackers.value;
      var looked := exit !in {Thanked, OffTopicReply, StaffRequested, SensitiveWarned, Refused};
      && (f.trackers.None? <==> Replaces(names, exit, m))
      && (f.trackers.Some? ==>
            && f.trackers.value.claims == was.claims
            && f.trackers.value.evidence ==
               (if looked && m.lookup.status in {Resolved, AmountMismatch} && m.lookup.entityId != ""
                then Claims.Evidence(m.lookup.entityId, m.lookup.amount, m.lookup.bank) else was.evidence)
            && f.trackers.value.contradictions == if looked then ContradictedBy(env, was, m.lookup) else was.contradictions)
  {
  }

  /** Evidence is bound, and contradictions found anew, exactly by a turn whose lookup verified a record; other turns
      keep them, and a turn that opens a case keeps no trackers. */
  lemma TurnBinds(env: Env, names: ChatTurn.Names, c: Context, m: Message)
    ensures
      var t := CourseOf(env, names, c, m);
      var f, u := t.final.issue, t.understood.issue;
      && u.trackers.Some?
      && (f.trackers.None? <==> Replaces(names, t.exit, m))
      && (f.trackers.Some? ==>
            && f.trackers.value.claims == u.trackers.value.claims
            && f.trackers.value.evidence ==
               (if IsLookedUp(m) && m.lookup.status in {Resolved, AmountMismatch} && m.lookup.entityId != ""
                then Claims.Evidence(m.lookup.entityId, m.lookup.amount, m.lookup.bank) else u.trackers.value.evidence)
            && f.trackers.value.contradictions ==
               if IsLookedUp(m) then ContradictedBy(env, u.trackers.value, m.lookup) else u.trackers.value.contradictions)
  {
    UnderstoodAs(env, Received(env, c, m.text, m.subject, m.now), m.analysis, m.text, m.now);
    EndsEarlyExactlyWhen(env, names, c, m);
    var t := CourseOf(env, names, c, m);
    FinalIssue(env, names, t.understood, t.analysis, ClaimsAmount(names, m), m);
    TrackersLeft(env, names, t.understood.issue, m, t.exit);
  }

  /** The turn found a transaction. */
  predicate FindsTransaction(exit: Exit, r: Lookup) {
    && exit !in {Thanked, OffTopicReply, StaffRequested, SensitiveWarned, Refused}
    && r.entityId != "" && r.isTransaction
  }

  lemma FieldLeft(env: Env, names: ChatTurn.Names, i: Issue, m: Message, exit: Exit, key: string)
    requires exit == CaseOpened ==> m.graph.Some?
    ensures
      Known(IssueAt(env, names, i, m, exit).info, key) ==
      if FindsTransaction(exit, m.lookup) && key == names.transaction then Words(m.lookup.entityId) else Known(i.info, key)
  {
  }

  lemma QuestionsLeft(env: Env, names: ChatTurn.Names, i: Issue, m: Message, exit: Exit)
    requires exit == CaseOpened ==> m.graph.Some?
    ensures
      IssueAt(env, names, i, m, exit).missing ==
      if Replaces(names, exit, m) then m.graph.value.missing
      else if FindsTransaction(exit, m.lookup) then RemoveFirst(i.missing, names.transaction) else i.missing
  {
  }

  /** A found transaction becomes the case's transaction id and answers one open question about it; an opened case
      brings its own questions. */
  lemma TurnStores(env: Env, names: ChatTurn.Names, c: Context, m: Message, key: string)
    ensures
      var t := CourseOf(env, names, c, m);
      var f, u := t.final.issue, t.understood.issue;
      var found := IsLookedUp(m) && m.lookup.entityId != "" && m.lookup.isTransaction;
      && Known(f.info, key) == (if found && key == names.transaction then Words(m.lookup.entityId) else Known(u.info, key))
      && (Replaces(names, t.exit, m) ==> f.missing == m.graph.value.missing)
      && (!Replaces(names, t.exit, m) ==>
            multiset(f.missing) == if found then multiset(u.missing) - multiset{names.transaction} else multiset(u.missing))
  {
    EndsEarlyExactlyWhen(env, names, c, m);
    var t := CourseOf(env, names, c, m);
    FinalIssue(env, names, t.understood, t.analysis, ClaimsAmount(names, m), m);
    FieldLeft(env, names, t.understood.issue, m, t.exit, key);
    QuestionsLeft(env, names, t.understood.issue, m, t.exit);
    RemoveFirstRemovesOne(t.understood.issue.missing, names.transaction);
  }

  /** The conversation after a turn: the customer's line and, except on the two exits that keep nothing, the reply,
      each unless it is empty; the problem is the first one of the issue, and identity and mood are the last ones. */
  lemma TurnRecords(env: Env, names: ChatTurn.Names, c: Context, m: Message)
    ensures
      var t := CourseOf(env, names, c, m);
      var said := if m.text == "" then [] else [Line(Customer, env.redact(m.text), m.now)];
      var replied := if m.reply == "" || t.exit in {Refused, GraphFailed} then []
                     else [Line(Agent, env.redact(m.reply), m.now)];
      && t.final.transcript == c.transcript + said + replied
      && t.final.problem == (if c.problem == "" || Drops(env, c.issue, m.analysis) then env.redact(m.text) else c.problem)
      && t.final.subject == (if m.subject == "" then c.subject else m.subject)
      && t.final.emotion == (if m.analysis.emotion == "" then c.emotion else m.analysis.emotion)
  {
    ResetsExactlyWhen(env, c.issue, m.analysis);
    UnderstoodIs(env, Received(env, c, m.text, m.subject, m.now), m.analysis, m.text, m.now);
  }

  /** A session is forgotten exactly when more than 180 seconds have passed since its last message, whose time every
      turn records. */
  lemma ForgottenExactlyWhen(env: Env, names: ChatTurn.Names, turns: seq<Visit>, clock: real)
    requires turns != []
    ensures
      var s := Run(env, names, turns);
      && s.lastActive == Some(turns[|turns| - 1].clock)
      && Expired(s, clock) == if clock > turns[|turns| - 1].clock + 180.0 then NO_SESSION else s
  {
  }

  // ---- Diagnoses over runs ----

  /** The diagnosis was shown by a message of the thread, and no later message of it is a correction. */
  ghost predicate IsUncorrected(d: Option<Diagnosis>, thread: seq<Message>) {
    d.Some? ==>
      exists k :: && 0 <= k < |thread| && thread[k].shown == d
                  && forall j :: k < j < |thread| ==> !thread[j].analysis.core.correction
  }

  lemma UncorrectedSnoc(d: Option<Diagnosis>, thread: seq<Message>, m: Message)
    requires IsUncorrected(d, thread) && !m.analysis.core.correction
    ensures IsUncorrected(d, thread + [m])
  {
    if d.Some? {
      var k :| && 0 <= k < |thread| && thread[k].shown == d
               && forall j :: k < j < |thread| ==> !thread[j].analysis.core.correction;
      assert (thread + [m])[k].shown == d;
    }
  }

  lemma UncorrectedLast(thread: seq<Message>, m: Message)
    ensures IsUncorrected(m.shown, thread + [m])
  {
    assert (thread + [m])[|thread|] == m;
  }

  lemma CourseUncorrected(env: Env, names: ChatTurn.Names, c: Context, thread: seq<Message>, m: Message)
    requires IsUncorrected(c.issue.diagnosis, thread)
    ensures
      var base := if Resets(env, c.issue, m.analysis) then [] else thread;
      IsUncorrected(CourseOf(env, names, c, m).final.issue.diagnosis, base + [m])
  {
    var base := if Resets(env, c.issue, m.analysis) then [] else thread;
    var d := CourseOf(env, names, c, m).final.issue.diagnosis;
    TurnLeaves(env, names, c, m);
    ResetsExactlyWhen(env, c.issue, m.analysis);
    UncorrectedLast(base, m);
    if d.Some? && d != m.shown {
      UncorrectedSnoc(d, base, m);
    }
  }

  lemma KeptUncorrected(env: Env, names: ChatTurn.Names, stored: Option<Context>, past: seq<Message>, m: Message)
    requires stored.Some? ==> IsUncorrected(stored.value.issue.diagnosis, past)
    ensures
      var kept := Kept(env, names, stored, m);
      kept.Some? ==> IsUncorrected(kept.value.issue.diagnosis, NextThread(env, names, stored, past, m))
  {
    CourseUncorrected(env, names, stored.GetOrElse(NEW_CONTEXT), if stored.Some? then past else [], m);
  }

  /** In every run the diagnosis that the next turn can read was shown by a message of the issue that none of its
      later messages corrects. */
  lemma {:induction false} StoredDiagnosisIsUncorrected(env: Env, names: ChatTurn.Names, turns: seq<Visit>)
    ensures
      var s := Run(env, names, turns);
      s.context.Some? ==> IsUncorrected(s.context.value.issue.diagnosis, Thread(env, names, turns))
  {
    if turns != [] {
      var before, last := turns[..|turns| - 1], turns[|turns| - 1];
      StoredDiagnosisIsUncorrected(env, names, before);
      KeptUncorrected(env, names, Expired(Run(env, names, before), last.clock).context, Thread(env, names, before),
                      last.message);
    }
  }
}
