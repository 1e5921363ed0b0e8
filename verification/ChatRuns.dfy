/** What turns keep, drop and carry over. */
module ChatRuns {
  import opened CaseTransition
  import opened ChatContext
  import opened ChatTurn
  import opened FieldMerge
  import opened Options
  import opened VndAmount
  import Claims = CustomerClaims
  import MessageAnalyzer

  // ---- When a case survives a message ----

  /** A message keeps the issue exactly when it is off topic or continues the case. */
  lemma IssueSurvivesExactlyWhen(env: Env, i: Issue, a: Analysis)
    requires HasPriorState(i)
    ensures !Resets(env, i, a) <==>
              IsNonCase(a.core.messageType) || Continues(env.names, a.core.messageType, a.core.hint, ActiveCaseOf(i))
  {
    SwitchTestIsRedundant(env, i, a);
    ReuseExactlyWhen(env.names, a.core.messageType, a.core.hint, ActiveCaseOf(i));
  }

  /** The kinds of message that only go on with a case. */
  predicate IsFollowUp(t: MessageType) {
    !IsNonCase(t) && !IsAck(t) && !StartsOrSwitches(t)
  }

  /** The active workflow is not authoritative for follow-ups: one whose hint names another known
      workflow drops the whole case. */
  lemma FollowUpKeepsCaseExactlyWhen(env: Env, c: Context, a: Analysis, message: string, now: string)
    requires HasActive(ActiveCaseOf(c.issue)) && IsFollowUp(a.core.messageType)
    ensures
      var (c', a') := Understood(env, c, a, message, now);
      var differ := Differ(Norm(env.names, a.core.hint), Norm(env.names, c.issue.workflow));
      && (Resets(env, c.issue, a) <==> differ)
      && c'.issue == Absorbed(env, if differ then NO_ISSUE.(trackers := Some(NEW_TRACKERS)) else c.issue, a, now)
  {
    IssueSurvivesExactlyWhen(env, c.issue, a);
    UnderstoodIs(env, c, a, message, now);
  }

  /** A thank-you within an active workflow gets its short acknowledgement and leaves the case alone
      exactly when its hint does not name another known workflow; otherwise the case is dropped and the
      reply is the one for off-topic messages. */
  lemma ThanksKeepsCaseExactlyWhen(env: Env, names: ChatTurn.Names, c: Context, m: Message)
    requires c.issue.workflow != "" && m.analysis.core.messageType == ThankYou
    ensures
      var t := CourseOf(env, names, c, m);
      var differ := Differ(Norm(env.names, m.analysis.core.hint), Norm(env.names, c.issue.workflow));
      && (t.exit == Thanked <==> !differ)
      && (differ ==> t.exit == OffTopicReply && t.final.issue.workflow == "" && t.final.issue.diagnosis == None)
      && (!differ ==> t.final.issue.workflow == c.issue.workflow && t.final.issue.caseId == c.issue.caseId)
  {
    var r := Received(env, c, m.text, m.subject, m.now);
    FollowUpKeepsCaseExactlyWhen(env, r, m.analysis, m.text, m.now);
    UnderstoodIs(env, r, m.analysis, m.text, m.now);
  }

  /** Until there is an active case nothing accumulates: whatever the customer said before, only this
      message's fields are stored and looked up. */
  lemma NothingAccumulatesWithoutCase(env: Env, c: Context, a: Analysis, message: string, now: string)
    requires !HasActive(ActiveCaseOf(c.issue)) && !IsNonCase(a.core.messageType) && !IsAck(a.core.messageType)
    ensures
      var (c', a') := Understood(env, c, a, message, now);
      && c'.issue.info == Merged(env.schema.keys, map[], a.extracted)
      && a'.extracted == Completed(env.schema.keys, a.extracted, c'.issue.info)
  {
    UnderstoodIs(env, c, a, message, now);
    if HasPriorState(c.issue) {
      IssueSurvivesExactlyWhen(env, c.issue, a);
    }
  }

  /** The later check that the reply is composed for the analyzed workflow never finds a difference. */
  lemma IdentityCheckNeverFires(env: Env, c: Context, a: Analysis, message: string, now: string)
    ensures
      var (c', a') := Understood(env, c, a, message, now);
      var composed := if c'.issue.workflow != "" then c'.issue.workflow
                      else if a'.core.hint != env.unknown then a'.core.hint else "";
      !(a'.core.hint != "" && a'.core.hint != env.unknown && composed != "" && composed != a'.core.hint)
  {
    ActiveWorkflowGoverns(env, c, a, message, now);
  }

  /** The case and the analysis handed to the resolver agree on every stored field. */
  lemma ContextAndAnalysisAgree(env: Env, c: Context, a: Analysis, message: string, now: string, key: string)
    requires key in env.schema.keys
    ensures
      var (c', a') := Understood(env, c, a, message, now);
      Known(a'.extracted, key) == Known(c'.issue.info, key)
  {
    UnderstoodIs(env, c, a, message, now);
    MergeThenCompleteAgree(env.schema.keys, Basis(env, c.issue, a).info, a.extracted, key);
  }

  // ---- Carry-over ----

  predicate IsNewIssueKind(env: Env, i: Issue, a: Analysis) {
    var kind := Transit(env, i, a).kind;
    kind == NewCase || kind == WorkflowSwitch
  }

  /** In a tracker whose history is empty nothing is claimed. */
  predicate IsBacked(t: Claims.Tracker) {
    t.history == [] ==> t.latest == map[]
  }

  function ToldCount(ms: seq<Claims.Merge>): nat {
    if ms == [] then 0 else (if ms[0].value == Absent then 0 else 1) + ToldCount(ms[1..])
  }

  lemma {:induction false} HistoryLength(t: Claims.Tracker, ms: seq<Claims.Merge>)
    ensures |Claims.ApplyAll(t, ms).history| == |t.history| + ToldCount(ms)
    decreases |ms|
  {
    if ms != [] {
      HistoryLength(Claims.Apply(t, ms[0]), ms[1..]);
    }
  }

  lemma {:induction false} ApplyAllBacked(t: Claims.Tracker, ms: seq<Claims.Merge>)
    requires IsBacked(t)
    ensures IsBacked(Claims.ApplyAll(t, ms))
    decreases |ms|
  {
    if ms != [] {
      ApplyAllBacked(Claims.Apply(t, ms[0]), ms[1..]);
    }
  }

  /** A message that starts or switches an issue is looked up by its own fields only, with no workflow,
      case, diagnosis or no-match streak of before and the conversation kept. */
  lemma NewIssueStartsClean(env: Env, c: Context, a: Analysis, message: string, now: string)
    requires IsNewIssueKind(env, c.issue, a)
    ensures
      var (c', a') := Understood(env, c, a, message, now);
      && c'.issue.info == Merged(env.schema.keys, map[], a.extracted)
      && a'.extracted == Completed(env.schema.keys, a.extracted, c'.issue.info)
      && a'.core == a.core
      && c'.issue.workflow == "" && c'.issue.caseId == "" && c'.issue.diagnosis == None && c'.issue.noMatches == 0
      && c'.transcript == c.transcript && c'.subject == c.subject
  {
    ReuseExactlyWhen(env.names, a.core.messageType, a.core.hint, ActiveCaseOf(c.issue));
    UnderstoodIs(env, c, a, message, now);
  }

  /** Its claims come from the message alone exactly when the old context had something that triggers
      the reset, or no claims to carry over; and the same for the bound evidence. */
  lemma CarriesOverExactlyWhen(env: Env, c: Context, a: Analysis, message: string, now: string)
    requires IsNewIssueKind(env, c.issue, a)
    requires IsBacked(c.issue.trackers.GetOrElse(NEW_TRACKERS).claims)
    ensures
      var (c', a') := Understood(env, c, a, message, now);
      var was := c.issue.trackers.GetOrElse(NEW_TRACKERS);
      && c'.issue.trackers.Some?
      && (c'.issue.trackers.value.claims == Claims.ApplyAll(Claims.EMPTY_TRACKER, ClaimMerges(a, now)) <==>
          HasPriorState(c.issue) || was.claims == Claims.EMPTY_TRACKER)
      && (c'.issue.trackers.value.evidence == NO_EVIDENCE <==>
          HasPriorState(c.issue) || was.evidence == NO_EVIDENCE)
  {
    ReuseExactlyWhen(env.names, a.core.messageType, a.core.hint, ActiveCaseOf(c.issue));
    UnderstoodIs(env, c, a, message, now);
    HistoryLength(c.issue.trackers.GetOrElse(NEW_TRACKERS).claims, ClaimMerges(a, now));
    HistoryLength(Claims.EMPTY_TRACKER, ClaimMerges(a, now));
  }

  // ---- Runs of one session ----

  /** A message and the time it arrives. */
  datatype Visit = Visit(clock: real, message: Message)

  ghost function Run(env: Env, names: ChatTurn.Names, turns: seq<Visit>): Session {
    if turns == [] then NO_SESSION
    else
      var last := turns[|turns| - 1];
      Step(env, names, Run(env, names, turns[..|turns| - 1]), last.clock, last.message)
  }

  /** The messages that the stored context has taken in since its issue began: none after an idle time,
      only the latest after a reset, and not those whose fresh case was lost. */
  ghost function Thread(env: Env, names: ChatTurn.Names, turns: seq<Visit>): seq<Message> {
    if turns == [] then []
    else
      var before, last := turns[..|turns| - 1], turns[|turns| - 1];
      NextThread(env, names, Expired(Run(env, names, before), last.clock).context, Thread(env, names, before), last.message)
  }

  ghost function NextThread(env: Env, names: ChatTurn.Names, stored: Option<Context>, past: seq<Message>, m: Message)
    : seq<Message>
  {
    var t := CourseOf(env, names, stored.GetOrElse(NEW_CONTEXT), m);
    var base := if stored.None? then [] else past;
    var resets := Resets(env, t.received.issue, m.analysis);
    if Saves(t.exit) || (stored.Some? && !resets) then (if resets then [] else base) + [m] else base
  }

  function Fields(ms: seq<Message>): seq<Info> {
    if ms == [] then [] else Fields(ms[..|ms| - 1]) + [ms[|ms| - 1].analysis.extracted]
  }

  /** Every stored field but the transaction id is the last non-empty value the thread gave. */
  ghost predicate StoresFields(env: Env, names: ChatTurn.Names, info: Info, thread: seq<Message>) {
    forall key :: key != names.transaction ==>
      Known(info, key) == if key in env.schema.keys then LastGiven(Fields(thread), key) else Absent
  }

  /** The bound evidence, if any, is what a lookup of the thread verified. */
  ghost predicate IsBound(evidence: Claims.Evidence, thread: seq<Message>) {
    || evidence == NO_EVIDENCE
    || exists k :: 0 <= k < |thread| && Binds(thread[k].lookup) && evidence == EvidenceOf(thread[k].lookup)
  }

  ghost predicate IsGrounded(env: Env, names: ChatTurn.Names, i: Issue, thread: seq<Message>) {
    && StoresFields(env, names, i.info, thread)
    && (i.trackers.Some? ==> IsBacked(i.trackers.value.claims) && IsBound(i.trackers.value.evidence, thread))
  }

  lemma StoresMerged(env: Env, names: ChatTurn.Names, info: Info, thread: seq<Message>, m: Message)
    requires StoresFields(env, names, info, thread)
    ensures StoresFields(env, names, Merged(env.schema.keys, info, m.analysis.extracted), thread + [m])
  {
    var fields := Fields(thread);
    assert Fields(thread + [m]) == fields + [m.analysis.extracted] by {
      assert (thread + [m])[..|thread|] == thread;
    }
    forall key | key != names.transaction
      ensures Known(Merged(env.schema.keys, info, m.analysis.extracted), key) ==
              if key in env.schema.keys then LastGiven(fields + [m.analysis.extracted], key) else Absent
    {
      MergedAt(env.schema.keys, info, m.analysis.extracted, key);
      assert (fields + [m.analysis.extracted])[..|fields|] == fields;
    }
  }

  lemma StoresExceptTransaction(env: Env, names: ChatTurn.Names, info: Info, thread: seq<Message>, id: Claimed)
    requires StoresFields(env, names, info, thread)
    ensures StoresFields(env, names, info[names.transaction := id], thread)
  {
  }

  lemma BoundLater(evidence: Claims.Evidence, thread: seq<Message>, m: Message)
    requires IsBound(evidence, thread)
    ensures IsBound(evidence, thread + [m])
  {
    if evidence != NO_EVIDENCE {
      var k :| 0 <= k < |thread| && Binds(thread[k].lookup) && evidence == EvidenceOf(thread[k].lookup);
      assert (thread + [m])[k] == thread[k];
    }
  }

  lemma AbsorbedGrounded(env: Env, names: ChatTurn.Names, i: Issue, thread: seq<Message>, m: Message)
    requires IsGrounded(env, names, i, thread)
    ensures IsGrounded(env, names, Absorbed(env, i, m.analysis, m.now), thread + [m])
  {
    StoresMerged(env, names, i.info, thread, m);
    var was := i.trackers.GetOrElse(NEW_TRACKERS);
    ApplyAllBacked(was.claims, ClaimMerges(m.analysis, m.now));
    BoundLater(was.evidence, thread, m);
  }

  lemma LookedGrounded(env: Env, names: ChatTurn.Names, i: Issue, thread: seq<Message>, m: Message)
    requires IsGrounded(env, names, i, thread + [m])
    ensures IsGrounded(env, names, Looked(env, names, i, m.lookup), thread + [m])
  {
    StoresExceptTransaction(env, names, i.info, thread + [m], Words(m.lookup.entityId));
    assert (thread + [m])[|thread|] == m;
  }

  lemma FinishedGrounded(env: Env, names: ChatTurn.Names, c: Context, a: Analysis, claimed: bool, thread: seq<Message>,
                         m: Message)
    requires IsGrounded(env, names, c.issue, thread + [m])
    ensures IsGrounded(env, names, Finished(env, names, c, a, claimed, m).1.issue, thread + [m])
  {
    LookedGrounded(env, names, c.issue, thread, m);
  }

  lemma FreshGrounded(env: Env, names: ChatTurn.Names)
    ensures IsGrounded(env, names, NO_ISSUE, [])
    ensures IsGrounded(env, names, NO_ISSUE.(trackers := Some(NEW_TRACKERS)), [])
  {
  }

  lemma CourseGrounded(env: Env, names: ChatTurn.Names, c: Context, thread: seq<Message>, m: Message)
    requires IsGrounded(env, names, c.issue, thread)
    ensures
      var t := CourseOf(env, names, c, m);
      var base := if Resets(env, c.issue, m.analysis) then [] else thread;
      t.received.issue == c.issue && IsGrounded(env, names, t.final.issue, base + [m])
  {
    var r := Received(env, c, m.text, m.subject, m.now);
    var base := if Resets(env, c.issue, m.analysis) then [] else thread;
    FreshGrounded(env, names);
    AbsorbedGrounded(env, names, Basis(env, c.issue, m.analysis), base, m);
    UnderstoodIs(env, r, m.analysis, m.text, m.now);
    var (u, a) := Understood(env, r, m.analysis, m.text, m.now);
    FinishedGrounded(env, names, u, a, ClaimsAmount(names, m), base, m);
  }

  /** In every run, what a stored context holds comes from the messages of its own issue: each field is
      the last non-empty value given, and bound evidence is what one of their lookups verified. */
  lemma {:induction false} ContextIsItsThread(env: Env, names: ChatTurn.Names, turns: seq<Visit>)
    ensures
      var s := Run(env, names, turns);
      s.context.Some? ==> IsGrounded(env, names, s.context.value.issue, Thread(env, names, turns))
  {
    if turns != [] {
      var before, last := turns[..|turns| - 1], turns[|turns| - 1];
      ContextIsItsThread(env, names, before);
      var stored := Expired(Run(env, names, before), last.clock).context;
      var past := if stored.Some? then Thread(env, names, before) else [];
      FreshGrounded(env, names);
      CourseGrounded(env, names, stored.GetOrElse(NEW_CONTEXT), past, last.message);
    }
  }

  // ---- Claims over runs ----

  /** The turn replaces the context by one without trackers. */
  predicate DropsTrackers(names: ChatTurn.Names, exit: Exit, m: Message) {
    exit == CaseOpened && m.graph.Some? && IsRealCase(names, m.graph.value)
  }

  /** The messages of the thread since the stored trackers were made: none once a case has been opened. */
  ghost function Tracked(env: Env, names: ChatTurn.Names, turns: seq<Visit>): seq<Message> {
    if turns == [] then []
    else
      var before, last := turns[..|turns| - 1], turns[|turns| - 1];
      var stored := Expired(Run(env, names, before), last.clock).context;
      NextTracked(env, names, stored, Tracked(env, names, before), last.message)
  }

  ghost function NextTracked(env: Env, names: ChatTurn.Names, stored: Option<Context>, past: seq<Message>, m: Message)
    : seq<Message>
  {
    TrackedAfter(env, names, stored, past, m, CourseOf(env, names, stored.GetOrElse(NEW_CONTEXT), m))
  }

  function TrackedAfter(env: Env, names: ChatTurn.Names, stored: Option<Context>, past: seq<Message>, m: Message,
                        t: Course): seq<Message>
  {
    var base := if stored.None? then [] else past;
    var resets := Resets(env, t.received.issue, m.analysis);
    if Saves(t.exit) || (stored.Some? && !resets) then
      if DropsTrackers(names, t.exit, m) then [] else (if resets then [] else base) + [m]
    else base
  }

  function MergesOf(ms: seq<Message>): seq<Claims.Merge> {
    if ms == [] then [] else MergesOf(ms[..|ms| - 1]) + ClaimMerges(ms[|ms| - 1].analysis, ms[|ms| - 1].now)
  }

  /** The tracker is what the messages' claims make of an empty one, and there is none before the first. */
  ghost predicate TracksClaims(i: Issue, tracked: seq<Message>) {
    match i.trackers
    case None => tracked == []
    case Some(t) => t.claims == Claims.ApplyAll(Claims.EMPTY_TRACKER, MergesOf(tracked))
  }

  lemma {:induction false} ApplyAllConcat(t: Claims.Tracker, a: seq<Claims.Merge>, b: seq<Claims.Merge>)
    ensures Claims.ApplyAll(t, a + b) == Claims.ApplyAll(Claims.ApplyAll(t, a), b)
    decreases |a|
  {
    if a == [] {
      assert a + b == b;
    } else {
      ApplyAllConcat(Claims.Apply(t, a[0]), a[1..], b);
      assert (a + b)[1..] == a[1..] + b;
    }
  }

  lemma AbsorbedTracks(env: Env, i: Issue, tracked: seq<Message>, m: Message)
    requires TracksClaims(i, tracked)
    ensures TracksClaims(Absorbed(env, i, m.analysis, m.now), tracked + [m])
  {
    var was := i.trackers.GetOrElse(NEW_TRACKERS);
    assert was.claims == Claims.ApplyAll(Claims.EMPTY_TRACKER, MergesOf(tracked));
    assert (tracked + [m])[..|tracked|] == tracked;
    ApplyAllConcat(Claims.EMPTY_TRACKER, MergesOf(tracked), ClaimMerges(m.analysis, m.now));
  }

  lemma LookedTracks(env: Env, names: ChatTurn.Names, i: Issue, r: Lookup, tracked: seq<Message>)
    requires TracksClaims(i, tracked) && i.trackers.Some?
    ensures TracksClaims(Looked(env, names, i, r), tracked) && Looked(env, names, i, r).trackers.Some?
  {
  }

  lemma IssueAtTracks(env: Env, names: ChatTurn.Names, i: Issue, m: Message, exit: Exit, tracked: seq<Message>)
    requires TracksClaims(i, tracked) && i.trackers.Some? && (exit == CaseOpened ==> m.graph.Some?)
    ensures TracksClaims(IssueAt(env, names, i, m, exit), if DropsTrackers(names, exit, m) then [] else tracked)
  {
    LookedTracks(env, names, i, m.lookup, tracked);
  }

  lemma FinishedTracks(env: Env, names: ChatTurn.Names, c: Context, a: Analysis, claimed: bool, m: Message,
                       tracked: seq<Message>)
    requires TracksClaims(c.issue, tracked) && c.issue.trackers.Some?
    ensures
      var (exit, final) := Finished(env, names, c, a, claimed, m);
      TracksClaims(final.issue, if DropsTrackers(names, exit, m) then [] else tracked)
  {
    IssueAtTracks(env, names, c.issue, m, ExitOf(env, names, c.issue, a, claimed, m), tracked);
  }

  lemma CourseTracks(env: Env, names: ChatTurn.Names, c: Context, tracked: seq<Message>, m: Message)
    requires TracksClaims(c.issue, tracked)
    ensures
      var t := CourseOf(env, names, c, m);
      var base := if Resets(env, c.issue, m.analysis) then [] else tracked;
      && t.received.issue == c.issue
      && TracksClaims(t.final.issue, if DropsTrackers(names, t.exit, m) then [] else base + [m])
  {
    var r := Received(env, c, m.text, m.subject, m.now);
    var base := if Resets(env, c.issue, m.analysis) then [] else tracked;
    AbsorbedTracks(env, Basis(env, c.issue, m.analysis), base, m);
    UnderstoodIs(env, r, m.analysis, m.text, m.now);
    var (u, a) := Understood(env, r, m.analysis, m.text, m.now);
    FinishedTracks(env, names, u, a, ClaimsAmount(names, m), m, base + [m]);
  }

  lemma CourseKeptTracks(env: Env, names: ChatTurn.Names, stored: Option<Context>, past: seq<Message>, m: Message,
                         t: Course)
    requires stored.Some? ==> TracksClaims(stored.value.issue, past) && t.received.issue == stored.value.issue
    requires
      var base := if stored.None? || Resets(env, t.received.issue, m.analysis) then [] else past;
      TracksClaims(t.final.issue, if DropsTrackers(names, t.exit, m) then [] else base + [m])
    ensures Saves(t.exit) ==> TracksClaims(t.final.issue, TrackedAfter(env, names, stored, past, m, t))
    ensures !Saves(t.exit) && stored.Some? ==>
              TracksClaims(Left(env, t, m).issue, TrackedAfter(env, names, stored, past, m, t))
  {
  }

  lemma KeptTracks(env: Env, names: ChatTurn.Names, stored: Option<Context>, past: seq<Message>, m: Message)
    requires stored.Some? ==> TracksClaims(stored.value.issue, past)
    ensures
      var kept := Kept(env, names, stored, m);
      kept.Some? ==> TracksClaims(kept.value.issue, NextTracked(env, names, stored, past, m))
  {
    var c := stored.GetOrElse(NEW_CONTEXT);
    CourseTracks(env, names, c, if stored.Some? then past else [], m);
    CourseKeptTracks(env, names, stored, past, m, CourseOf(env, names, c, m));
  }

  /** In every run the stored tracker is exactly what the claims of the thread's messages since it was made
      give when merged in order into an empty one. */
  lemma {:induction false} TrackerIsItsMessages(env: Env, names: ChatTurn.Names, turns: seq<Visit>)
    ensures
      var s := Run(env, names, turns);
      s.context.Some? ==> TracksClaims(s.context.value.issue, Tracked(env, names, turns))
  {
    if turns != [] {
      var before, last := turns[..|turns| - 1], turns[|turns| - 1];
      TrackerIsItsMessages(env, names, before);
      var stored := Expired(Run(env, names, before), last.clock).context;
      KeptTracks(env, names, stored, Tracked(env, names, before), last.message);
    }
  }

  lemma {:induction false} ApplyAllIsRun(ms: seq<Claims.Merge>)
    ensures Claims.ApplyAll(Claims.EMPTY_TRACKER, ms) == Claims.Run(ms)
  {
    if ms != [] {
      var before, last := ms[..|ms| - 1], ms[|ms| - 1];
      ApplyAllIsRun(before);
      ApplyAllConcat(Claims.EMPTY_TRACKER, before, [last]);
      assert ms == before + [last];
      assert [last][1..] == [];
    }
  }

  /** So what holds of every claim history holds of the chat's: the value tracked for a field is the last
      one that those messages claimed. */
  lemma TrackedValueIsLast(env: Env, names: ChatTurn.Names, turns: seq<Visit>, field: string)
    requires
      var s := Run(env, names, turns);
      s.context.Some? && s.context.value.issue.trackers.Some?
    ensures
      var claims := Run(env, names, turns).context.value.issue.trackers.value.claims;
      var told := Claims.Told(MergesOf(Tracked(env, names, turns)));
      var last := Claims.LastAbout(told, field);
      && (field in claims.latest <==> last.Some?)
      && (last.Some? ==> claims.latest[field] == told[last.value].value)
      && |claims.history| == |told|
  {
    TrackerIsItsMessages(env, names, turns);
    ApplyAllIsRun(MergesOf(Tracked(env, names, turns)));
    Claims.RunIsHistory(MergesOf(Tracked(env, names, turns)));
  }

  /** After more than the idle time a turn is like the first one. */
  lemma IdleStartsAfresh(env: Env, names: ChatTurn.Names, turns: seq<Visit>, clock: real, m: Message)
    requires IsIdle(Run(env, names, turns), clock)
    ensures Run(env, names, turns + [Visit(clock, m)]) == Run(env, names, [Visit(clock, m)])
    ensures Thread(env, names, turns + [Visit(clock, m)]) <= [m]
  {
    assert (turns + [Visit(clock, m)])[..|turns|] == turns;
    assert [Visit(clock, m)][..0] == [];
  }

  /** Until then the conversation only grows, whatever happens to the case. */
  lemma TranscriptOnlyGrows(env: Env, names: ChatTurn.Names, s: Session, clock: real, m: Message)
    requires s.context.Some? && !IsIdle(s, clock)
    ensures
      var s' := Step(env, names, s, clock, m);
      && s'.context.Some?
      && Recorded(env, s.context.value.transcript, Customer, m.text, m.now) <= s'.context.value.transcript
  {
    var r := Received(env, s.context.value, m.text, m.subject, m.now);
    UnderstoodIs(env, r, m.analysis, m.text, m.now);
  }

  // ---- What slips through ----

  /** The message gives none of the fields that a case stores. */
  ghost predicate StoresNothing(env: Env, a: Analysis) {
    forall key :: key in env.schema.keys ==> Known(a.extracted, key) == Absent
  }

  lemma {:induction false} MergingNothing(keys: seq<string>, info: Info, extracted: Info)
    requires forall key :: key in keys ==> Known(extracted, key) == Absent
    ensures Merged(keys, info, extracted) == info
  {
    if keys != [] {
      MergingNothing(keys[..|keys| - 1], info, extracted);
    }
  }

  /** A first message that is answered from a verified account, not from a transaction, and gives no
      field that a case stores. */
  ghost predicate IsAnsweredFromAccount(env: Env, names: ChatTurn.Names, m: Message) {
    && m.analysis.core.messageType == AskStatus && StoresNothing(env, m.analysis) && names.amount in env.schema.keys
    && !m.staffRequest && !m.refused && (m.shown == None || m.shown.value.cause == "")
    && m.lookup.status == Resolved && m.lookup.entityId != "" && !m.lookup.isTransaction
  }

  /** After it nothing triggers a reset: the next complaint, about anything, is judged with the first
      one's evidence bound and its claims tracked. */
  lemma LeftoversCarryOver(env: Env, names: ChatTurn.Names, first: Visit, next: Visit)
    requires IsAnsweredFromAccount(env, names, first.message) && next.message.analysis.core.messageType == NewComplaint
    requires next.clock - first.clock <= SESSION_IDLE_TTL_SECONDS
    ensures
      var s := Run(env, names, [first]);
      var m := next.message;
      && !IsIdle(s, next.clock) && s.context.Some?
      && var r := Received(env, s.context.value, m.text, m.subject, m.now);
         var i := Understood(env, r, m.analysis, m.text, m.now).0.issue;
         && i.trackers.Some?
         && i.trackers.value.evidence == EvidenceOf(first.message.lookup) != NO_EVIDENCE
         && i.trackers.value.claims == Claims.ApplyAll(
              Claims.ApplyAll(Claims.EMPTY_TRACKER, ClaimMerges(first.message.analysis, first.message.now)),
              ClaimMerges(m.analysis, m.now))
  {
    AnsweredFromAccount(env, names, first.message);
    assert [first][..0] == [];
    var c := CourseOf(env, names, NEW_CONTEXT, first.message).final;
    var m := next.message;
    CarriedOver(env, Received(env, c, m.text, m.subject, m.now), m.analysis, m.text, m.now);
  }

  lemma CarriedOver(env: Env, c: Context, a: Analysis, message: string, now: string)
    requires !HasPriorState(c.issue) && c.issue.trackers.Some?
    ensures
      var i := Understood(env, c, a, message, now).0.issue;
      && i.trackers.Some? && i.trackers.value.evidence == c.issue.trackers.value.evidence
      && i.trackers.value.claims == Claims.ApplyAll(c.issue.trackers.value.claims, ClaimMerges(a, now))
  {
    UnderstoodIs(env, c, a, message, now);
  }

  lemma AnsweredFromAccount(env: Env, names: ChatTurn.Names, m: Message)
    requires IsAnsweredFromAccount(env, names, m)
    ensures
      var t := CourseOf(env, names, NEW_CONTEXT, m);
      var i := t.final.issue;
      && t.exit == Answered && !HasPriorState(i)
      && i.trackers.Some? && i.trackers.value.evidence == EvidenceOf(m.lookup)
      && i.trackers.value.claims == Claims.ApplyAll(Claims.EMPTY_TRACKER, ClaimMerges(m.analysis, m.now))
  {
    MergingNothing(env.schema.keys, map[], m.analysis.extracted);
    var r := Received(env, NEW_CONTEXT, m.text, m.subject, m.now);
    UnderstoodIs(env, r, m.analysis, m.text, m.now);
    var (u, a) := Understood(env, r, m.analysis, m.text, m.now);
    FinishedFromAccount(env, names, u, a, m);
  }

  lemma ExitFromAccount(env: Env, names: ChatTurn.Names, i: Issue, a: Analysis, m: Message)
    requires IsAnsweredFromAccount(env, names, m) && a.core.messageType == AskStatus
    ensures !ClaimsAmount(names, m) && ExitOf(env, names, i, a, ClaimsAmount(names, m), m) == Answered
  {
  }

  lemma FinishedFromAccount(env: Env, names: ChatTurn.Names, c: Context, a: Analysis, m: Message)
    requires IsAnsweredFromAccount(env, names, m)
    requires a.core.messageType == AskStatus && c.issue == Absorbed(env, NO_ISSUE, m.analysis, m.now)
    requires c.issue.info == map[]
    ensures
      var (exit, final) := Finished(env, names, c, a, ClaimsAmount(names, m), m);
      var i := final.issue;
      && exit == Answered && !HasPriorState(i)
      && i.trackers.Some? && i.trackers.value.evidence == EvidenceOf(m.lookup)
      && i.trackers.value.claims == c.issue.trackers.value.claims
  {
    ExitFromAccount(env, names, c.issue, a, m);
    assert IssueAt(env, names, c.issue, m, Answered).trackers ==
           Some(Trackers(c.issue.trackers.value.claims, EvidenceOf(m.lookup),
                         env.contradict(c.issue.trackers.value.claims.latest, EvidenceOf(m.lookup))));
  }

  /** A merchant id is such an unstored field, and it is claimed all the same. */
  lemma MerchantIdIsClaimedNotStored(id: string, now: string)
    requires id != ""
    ensures
      var extracted := map["merchant_id" := Words(id)];
      && (forall key :: key in CHAT_SCHEMA.keys ==> Known(extracted, key) == Absent)
      && Claims.ExtractedMerges(extracted, false, now, 0) == [Claims.Merge("merchant_id", Words(id), false, now)]
  {
    NoMergesFrom(id, now, 4);
    OnlyMerge(id, now, 0);
  }

  lemma {:induction false} NoMergesFrom(id: string, now: string, n: nat)
    requires 4 <= n <= |Claims.FIELD_MAP|
    ensures Claims.ExtractedMerges(map["merchant_id" := Words(id)], false, now, n) == []
    decreases |Claims.FIELD_MAP| - n
  {
    if n < |Claims.FIELD_MAP| {
      NoMergesFrom(id, now, n + 1);
    }
  }

  lemma {:induction false} OnlyMerge(id: string, now: string, n: nat)
    requires n <= 3 && id != ""
    ensures Claims.ExtractedMerges(map["merchant_id" := Words(id)], false, now, n) ==
            [Claims.Merge("merchant_id", Words(id), false, now)]
    decreases 3 - n
  {
    if n < 3 {
      OnlyMerge(id, now, n + 1);
    } else {
      NoMergesFrom(id, now, 4);
    }
  }

  // ---- Exits ----

  lemma UnderstoodKeeps(env: Env, c: Context, a: Analysis, message: string, now: string)
    ensures
      var (c', a') := Understood(env, c, a, message, now);
      && a'.core.messageType == a.core.messageType
      && c'.issue.noMatches == if Resets(env, c.issue, a) then 0 else c.issue.noMatches
  {
    UnderstoodIs(env, c, a, message, now);
  }

  lemma SensitiveExit(env: Env, names: ChatTurn.Names, i: Issue, a: Analysis, claimed: bool, m: Message)
    ensures ExitOf(env, names, i, a, claimed, m) == SensitiveWarned <==>
              a.core.messageType == ProvideSensitiveInfo && !m.staffRequest
  {
  }

  lemma NotFoundExit(env: Env, names: ChatTurn.Names, i: Issue, a: Analysis, claimed: bool, m: Message)
    requires m.lookup.status != NoMatch
    ensures
      ExitOf(env, names, i, a, claimed, m) == NotFound <==>
        && m.lookup.status == NeedMoreInfo && m.lookup.entityId == ""
        && !IsNonCase(a.core.messageType) && a.core.messageType !in {ThankYou, ProvideSensitiveInfo, NewComplaint}
        && !m.staffRequest && !m.refused && i.noMatches >= 1
        && !HasSearchable(names, a.extracted) && KnowsWorkflow(env, i, a)
  {
  }

  /** The streak at the end of a turn, by its exit. */
  lemma StreakAt(env: Env, names: ChatTurn.Names, i: Issue, m: Message, exit: Exit)
    requires exit == CaseOpened ==> m.graph.Some?
    ensures
      var after := IssueAt(env, names, i, m, exit).noMatches;
      && (exit == NotFound <==> after > i.noMatches) && (exit == NotFound ==> after == i.noMatches + 1)
      && (after < i.noMatches ==> after == 0 && exit in {GraphFailed, CaseOpened, Answered})
  {
  }

  lemma FinalIssue(env: Env, names: ChatTurn.Names, c: Context, a: Analysis, claimed: bool, m: Message)
    ensures
      var (exit, final) := Finished(env, names, c, a, claimed, m);
      && exit == ExitOf(env, names, c.issue, a, claimed, m) && (exit == CaseOpened ==> m.graph.Some?)
      && final.issue == IssueAt(env, names, c.issue, m, exit)
  {
  }

  /** Sensitive information is answered with the warning exactly when the analysis still says so and the
      message asks for no staff. */
  lemma SensitiveWarnedExactlyWhen(env: Env, names: ChatTurn.Names, c: Context, m: Message)
    ensures
      CourseOf(env, names, c, m).exit == SensitiveWarned <==>
        m.analysis.core.messageType == ProvideSensitiveInfo && !m.staffRequest
  {
    UnderstoodKeeps(env, Received(env, c, m.text, m.subject, m.now), m.analysis, m.text, m.now);
    var t := CourseOf(env, names, c, m);
    SensitiveExit(env, names, t.understood.issue, t.analysis, ClaimsAmount(names, m), m);
  }

  /** The fallback finds it in any message that matches the pattern, and forgets it again when another
      workflow than the active one is detected. */
  lemma FoundSensitiveWarnedExactlyWhen(env: Env, names: ChatTurn.Names, c: Context, m: Message,
                                        detector: MessageAnalyzer.Names, g: MessageAnalyzer.Signals,
                                        f: MessageAnalyzer.Fields)
    requires g.sensitive
    requires m.analysis.core == MessageAnalyzer.FallbackAnalyze(detector, g, f, c.issue.workflow)
    ensures
      CourseOf(env, names, c, m).exit == SensitiveWarned <==>
        && !m.staffRequest
        && (c.issue.workflow == "" || MessageAnalyzer.DetectHint(detector, g) in {None, Some(c.issue.workflow)})
  {
    SensitiveWarnedExactlyWhen(env, names, c, m);
  }

  /** A refused message is not saved, yet its fields stay in a stored case that it continues; and when
      it starts another issue, that one is lost and the old case stays active. */
  lemma RefusedTurn(env: Env, names: ChatTurn.Names, c: Context, m: Message)
    requires CourseOf(env, names, c, m).exit == Refused
    ensures
      var kept := Kept(env, names, Some(c), m);
      && kept.Some?
      && (Resets(env, c.issue, m.analysis) ==> kept.value.issue == c.issue)
      && (!Resets(env, c.issue, m.analysis) ==> kept.value.issue == Absorbed(env, c.issue, m.analysis, m.now))
  {
    var r := Received(env, c, m.text, m.subject, m.now);
    UnderstoodIs(env, r, m.analysis, m.text, m.now);
  }

  lemma OpenedIssue(env: Env, names: ChatTurn.Names, c: Context, a: Analysis, claimed: bool, m: Message)
    requires m.graph.Some? && IsRealCase(names, m.graph.value) && Finished(env, names, c, a, claimed, m).0 == CaseOpened
    ensures
      var i := Finished(env, names, c, a, claimed, m).1.issue;
      && i.trackers == None && i.caseId == m.graph.value.caseId
      && (forall key :: key != names.transaction ==> Known(i.info, key) == Known(c.issue.info, key))
  {
  }

  /** The no-match streak after a turn: it begins anew with an issue, grows only when nothing is found,
      and ends when a record is verified or a case is opened. */
  lemma StreakAfter(env: Env, names: ChatTurn.Names, c: Context, m: Message)
    ensures
      var t := CourseOf(env, names, c, m);
      var before := if Resets(env, c.issue, m.analysis) then 0 else c.issue.noMatches;
      && (t.exit == NotFound <==> t.final.issue.noMatches > before)
      && (t.exit == NotFound ==> t.final.issue.noMatches == before + 1)
      && (t.final.issue.noMatches < before ==>
            t.final.issue.noMatches == 0 && t.exit in {GraphFailed, CaseOpened, Answered})
  {
    UnderstoodKeeps(env, Received(env, c, m.text, m.subject, m.now), m.analysis, m.text, m.now);
    var t := CourseOf(env, names, c, m);
    FinalIssue(env, names, t.understood, t.analysis, ClaimsAmount(names, m), m);
    StreakAt(env, names, t.understood.issue, m, t.exit);
  }

  /** Why a turn ends as not found without a lookup that found nothing: the customer repeats an issue. */
  lemma NotFoundOtherwise(env: Env, names: ChatTurn.Names, c: Context, m: Message)
    requires CourseOf(env, names, c, m).exit == NotFound && m.lookup.status != NoMatch
    ensures
      var t := CourseOf(env, names, c, m);
      && m.lookup.status == NeedMoreInfo && m.lookup.entityId == ""
      && t.understood.issue.noMatches >= 1 && t.analysis.core.messageType != NewComplaint
      && !HasSearchable(names, t.analysis.extracted) && KnowsWorkflow(env, t.understood.issue, t.analysis)
      && (t.understood.issue.workflow == "" || t.understood.issue.workflow == t.analysis.core.hint)
  {
    var r, t := Received(env, c, m.text, m.subject, m.now), CourseOf(env, names, c, m);
    ActiveWorkflowGoverns(env, r, m.analysis, m.text, m.now);
    NotFoundExit(env, names, t.understood.issue, t.analysis, ClaimsAmount(names, m), m);
  }

  /** What else a turn needs to end as not found when its lookup asks for more and names no record: an issue
      that was not found before is repeated, by a message that no earlier exit answers, that starts nothing
      and gives nothing to search for. */
  ghost predicate Repeats(env: Env, names: ChatTurn.Names, c: Context, m: Message) {
    var t, kind := CourseOf(env, names, c, m), m.analysis.core.messageType;
    && !IsNonCase(kind) && kind !in {ThankYou, ProvideSensitiveInfo, NewComplaint} && !m.staffRequest && !m.refused
    && !Resets(env, c.issue, m.analysis) && c.issue.noMatches >= 1
    && !HasSearchable(names, t.analysis.extracted) && KnowsWorkflow(env, t.understood.issue, t.analysis)
  }

  /** A turn whose lookup did not come back empty-handed ends as not found exactly when the lookup asks for more,
      names no record and the customer repeats an issue. */
  lemma InsistsExactlyWhen(env: Env, names: ChatTurn.Names, c: Context, m: Message)
    requires m.lookup.status != NoMatch
    ensures
      CourseOf(env, names, c, m).exit == NotFound <==>
        m.lookup.status == NeedMoreInfo && m.lookup.entityId == "" && Repeats(env, names, c, m)
  {
    UnderstoodKeeps(env, Received(env, c, m.text, m.subject, m.now), m.analysis, m.text, m.now);
    var t := CourseOf(env, names, c, m);
    NotFoundExit(env, names, t.understood.issue, t.analysis, ClaimsAmount(names, m), m);
  }

  /** With the fields the agent stores, such a turn means that the issue's messages never gave anything to
      search for. */
  lemma NothingSearchableWasGiven(env: Env, c: Context, m: Message, k: nat)
    requires env.schema == CHAT_SCHEMA && k < |CHAT_NAMES.searchable|
    requires CourseOf(env, CHAT_NAMES, c, m).exit == NotFound && m.lookup.status != NoMatch
    ensures Known(CourseOf(env, CHAT_NAMES, c, m).understood.issue.info, CHAT_NAMES.searchable[k]) == Absent
  {
    NotFoundOtherwise(env, CHAT_NAMES, c, m);
    SearchableIsStored(k);
    var r := Received(env, c, m.text, m.subject, m.now);
    ContextAndAnalysisAgree(env, r, m.analysis, m.text, m.now, CHAT_NAMES.searchable[k]);
  }

  lemma SearchableIsStored(k: nat)
    requires k < |CHAT_NAMES.searchable|
    ensures CHAT_NAMES.searchable[k] in CHAT_SCHEMA.keys
  {
    assert CHAT_SCHEMA.keys[..3] == CHAT_NAMES.searchable[..3];
    assert CHAT_SCHEMA.keys[4..9] == CHAT_NAMES.searchable[3..];
    assert k < 3 ==> CHAT_SCHEMA.keys[k] == CHAT_NAMES.searchable[k];
    assert k >= 3 ==> CHAT_SCHEMA.keys[k + 1] == CHAT_NAMES.searchable[k];
  }

  /** Repeating an issue is never held against another one: a message that starts or switches an issue is
      answered as not found only when its own lookup found nothing. */
  lemma NewIssueNeverInsists(env: Env, names: ChatTurn.Names, c: Context, m: Message)
    requires IsNewIssueKind(env, c.issue, m.analysis)
    ensures
      var t := CourseOf(env, names, c, m);
      t.exit == NotFound ==> m.lookup.status == NoMatch && t.final.issue.noMatches == 1
  {
    var r := Received(env, c, m.text, m.subject, m.now);
    NewIssueStartsClean(env, r, m.analysis, m.text, m.now);
  }

  /** A turn that opens a case forgets the claims and evidence of that very message, while its fields
      are kept. */
  lemma OpeningForgetsClaims(env: Env, names: ChatTurn.Names, c: Context, m: Message)
    requires m.graph.Some? && IsRealCase(names, m.graph.value) && CourseOf(env, names, c, m).exit == CaseOpened
    ensures
      var t := CourseOf(env, names, c, m);
      && t.final.issue.trackers == None && t.final.issue.caseId == m.graph.value.caseId
      && (forall key :: key != names.transaction ==> Known(t.final.issue.info, key) == Known(t.understood.issue.info, key))
  {
    var t := CourseOf(env, names, c, m);
    OpenedIssue(env, names, t.understood, t.analysis, ClaimsAmount(names, m), m);
  }

  /** The next message's claims are then tracked as if they were the first, even a correction. */
  lemma UntrackedStartsOver(env: Env, c: Context, a: Analysis, message: string, now: string)
    requires c.issue.trackers == None
    ensures
      var i := Understood(env, c, a, message, now).0.issue;
      && i.trackers.Some? && i.trackers.value.evidence == NO_EVIDENCE
      && i.trackers.value.claims == Claims.ApplyAll(Claims.EMPTY_TRACKER, ClaimMerges(a, now))
  {
    UnderstoodIs(env, c, a, message, now);
  }

  /** Whether a back-office ticket is made at once; `status` is that of the last lookup and `decided`
      whether the graph's rules decided something or asked for approval. */
  predicate ShouldCreateTicket(t: MessageType, status: CaseStatus, decided: bool, i: Issue) {
    && !IsNonCase(t) && t != ThankYou && status != NoMatch
    && (|| decided
        || (i.trackers.Some? && i.trackers.value.contradictions != [])
        || (i.caseId != "" && status != Resolved))
  }

  /** Contradictions never decide it: the only place that asks has just stored a context without them. */
  lemma ContradictionsNeverMakeTicket(env: Env, names: ChatTurn.Names, c: Context, m: Message, status: CaseStatus,
                                      decided: bool)
    requires m.graph.Some? && IsRealCase(names, m.graph.value) && CourseOf(env, names, c, m).exit == CaseOpened
    ensures
      var t := CourseOf(env, names, c, m);
      ShouldCreateTicket(t.analysis.core.messageType, status, decided, t.final.issue) <==>
        status != NoMatch && (decided || status != Resolved)
  {
  }
}
