/** One turn of a logged-in customer's chat, and the contexts kept between turns. */
module ChatTurn {
  import opened CaseTransition
  import opened ChatContext
  import opened FieldMerge
  import opened Options
  import opened VndAmount
  import Claims = CustomerClaims

  /** What the resolver found for the turn; an empty id stands for no record. */
  datatype Lookup = Lookup(status: CaseStatus, entityId: string, isTransaction: bool, amount: Option<int>, bank: string,
                           hasResponse: bool)

  /** The case that the workflow graph opened. */
  datatype Opened = Opened(caseId: string, workflow: string, serviceType: string, missing: seq<string>)

  /** The keys and markers that the turn names. */
  datatype Names = Names(amount: string, transaction: string, searchable: seq<string>, pending: string)

  const CHAT_NAMES := Names(
    "amount", "transaction_id",
    ["transaction_id", "order_id", "bill_code", "amount", "bank_name", "bank_reference",
     "approximate_time_text", "approximate_date_text"], "pending")

  /** A message with everything the rest of the system answers to it. */
  datatype Message = Message(
    text: string, now: string, subject: string, analysis: Analysis, staffRequest: bool, refused: bool,
    lookup: Lookup, graph: Option<Opened>, shown: Option<Diagnosis>, reply: string)

  /** Where a turn ends. */
  datatype Exit =
    | Thanked
    | OffTopicReply
    | StaffRequested
    | SensitiveWarned
    | Refused
    | AmountConflict
    | NotFound
    | ManyFound
    | GraphFailed
    | CaseOpened
    | Answered

  function Said(env: Env, c: Context, m: Message): Context {
    c.(transcript := Recorded(env, c.transcript, Agent, m.reply, m.now))
  }

  function RemoveFirst(s: seq<string>, x: string): seq<string> {
    if s == [] then [] else if s[0] == x then s[1..] else [s[0]] + RemoveFirst(s[1..], x)
  }

  /** Evidence is bound only by a lookup that verified a record. */
  predicate Binds(r: Lookup) {
    (r.status == Resolved || r.status == AmountMismatch) && r.entityId != ""
  }

  function EvidenceOf(r: Lookup): Claims.Evidence {
    Claims.Evidence(r.entityId, r.amount, r.bank)
  }

  function Looked(env: Env, names: Names, i: Issue, r: Lookup): Issue {
    var found := r.entityId != "" && r.isTransaction;
    var t := i.trackers.GetOrElse(NEW_TRACKERS);
    i.(status := r.status,
       resolvedEntity := if r.entityId != "" then Some(r.entityId) else i.resolvedEntity,
       info := if found then i.info[names.transaction := Words(r.entityId)] else i.info,
       missing := if found then RemoveFirst(i.missing, names.transaction) else i.missing,
       trackers := if Binds(r)
                   then Some(Trackers(t.claims, EvidenceOf(r), env.contradict(t.claims.latest, EvidenceOf(r))))
                   else i.trackers)
  }

  predicate AmountDiffers(names: Names, i: Issue) {
    i.trackers.Some? &&
    var cs := i.trackers.value.contradictions;
    exists k :: 0 <= k < |cs| && cs[k].field == names.amount
  }

  predicate KnowsWorkflow(env: Env, i: Issue, a: Analysis) {
    (a.core.hint != "" && a.core.hint != env.unknown) || i.workflow != ""
  }

  predicate HasSearchable(names: Names, extracted: Info) {
    exists k :: 0 <= k < |names.searchable| && Known(extracted, names.searchable[k]) != Absent
  }

  /** Nothing was found, or the customer repeats an issue that was not found before. */
  predicate IsNotFound(env: Env, names: Names, i: Issue, a: Analysis, r: Lookup) {
    && KnowsWorkflow(env, i, a)
    && (|| r.status == NoMatch
        || (&& i.noMatches >= 1 && a.core.messageType != NewComplaint && !HasSearchable(names, a.extracted)
            && r.entityId == "" && r.status == NeedMoreInfo))
  }

  predicate RunsGraph(i: Issue, a: Analysis) {
    || a.core.messageType == NewComplaint
    || (i.caseId == "" && a.core.messageType !in {FollowUp, AskStatus, AskEta, AskWhatToDo, ProvideSensitiveInfo})
  }

  /** Where the turn ends, for the context and analysis after understanding and the issue after lookup. */
  function ExitOf(env: Env, names: Names, i: Issue, a: Analysis, claimed: bool, m: Message): Exit {
    var t, r, looked := a.core.messageType, m.lookup, Looked(env, names, i, m.lookup);
    if t == ThankYou && i.workflow != "" then Thanked
    else if IsNonCase(t) || t == ThankYou then OffTopicReply
    else if m.staffRequest then StaffRequested
    else if t == ProvideSensitiveInfo then SensitiveWarned
    else if m.refused then Refused
    else if r.status == AmountMismatch || (r.status == Resolved && AmountDiffers(names, looked) && claimed)
    then AmountConflict
    else if IsNotFound(env, names, looked, a, r) then NotFound
    else if r.status == MultipleCandidates && r.hasResponse then ManyFound
    else if RunsGraph(looked, a) then if m.graph.None? then GraphFailed else CaseOpened
    else Answered
  }

  predicate IsRealCase(names: Names, o: Opened) {
    o.caseId != "" && o.caseId != names.pending
  }

  /** The issue of a case just opened, which keeps the fields and the record of the one it came from. */
  function OpenedFrom(i: Issue, o: Opened, shown: Option<Diagnosis>): Issue {
    Issue(o.caseId, o.workflow, o.serviceType, o.missing, i.info, i.resolvedEntity, shown, 0, NoStatus, None)
  }

  /** The issue at the end of the turn. */
  function IssueAt(env: Env, names: Names, i: Issue, m: Message, exit: Exit): Issue
    requires exit == CaseOpened ==> m.graph.Some?
  {
    var looked := Looked(env, names, i, m.lookup);
    var settled := if m.lookup.status == Resolved then looked.(noMatches := 0) else looked;
    match exit
    case Thanked | OffTopicReply | StaffRequested | SensitiveWarned | Refused => i
    case AmountConflict => looked.(diagnosis := None)
    case NotFound => looked.(noMatches := looked.noMatches + 1)
    case ManyFound => looked
    case GraphFailed => settled
    case CaseOpened =>
      if IsRealCase(names, m.graph.value) then OpenedFrom(settled, m.graph.value, m.shown) else settled
    case Answered =>
      if m.lookup.status == Resolved && m.shown.Some? && m.shown.value.cause != ""
      then settled.(diagnosis := m.shown) else settled
  }

  function Finished(env: Env, names: Names, c: Context, a: Analysis, claimed: bool, m: Message): (Exit, Context) {
    var exit := ExitOf(env, names, c.issue, a, claimed, m);
    var c' := c.(issue := IssueAt(env, names, c.issue, m, exit));
    (exit, if exit == Refused || exit == GraphFailed then c' else Said(env, c', m))
  }

  predicate ClaimsAmount(names: Names, m: Message) {
    Known(m.analysis.extracted, names.amount) != Absent
  }

  // ---- Sessions ----

  const SESSION_IDLE_TTL_SECONDS := 180.0

  /** What is kept of a session: its context and the time of its last message. */
  datatype Session = Session(context: Option<Context>, lastActive: Option<real>)

  const NO_SESSION := Session(None, None)

  predicate IsIdle(s: Session, clock: real) {
    s.lastActive.Some? && clock - s.lastActive.value > SESSION_IDLE_TTL_SECONDS
  }

  function Expired(s: Session, clock: real): Session {
    if IsIdle(s, clock) then NO_SESSION else s
  }

  /** The parts of a turn: the context as the message reaches it, understood, and finished. */
  datatype Course = Course(received: Context, understood: Context, analysis: Analysis, exit: Exit, final: Context)

  ghost function CourseOf(env: Env, names: Names, c: Context, m: Message): Course {
    var received := Received(env, c, m.text, m.subject, m.now);
    var (understood, a) := Understood(env, received, m.analysis, m.text, m.now);
    var (exit, final) := Finished(env, names, understood, a, ClaimsAmount(names, m), m);
    Course(received, understood, a, exit, final)
  }

  predicate Saves(exit: Exit) {
    exit != Refused && exit != GraphFailed
  }

  /** What a turn that does not save leaves of the context object it loaded. */
  function Left(env: Env, t: Course, m: Message): Context {
    if Resets(env, t.received.issue, m.analysis) then t.received else t.final
  }

  /** What the session's entry is after a turn. A turn that ends without saving still leaves its changes
      in a stored context, except that a fresh case is lost and the old one remains. */
  ghost function Kept(env: Env, names: Names, stored: Option<Context>, m: Message): Option<Context> {
    var t := CourseOf(env, names, stored.GetOrElse(NEW_CONTEXT), m);
    if Saves(t.exit) then Some(t.final) else if stored.None? then None else Some(Left(env, t, m))
  }

  ghost function Step(env: Env, names: Names, s: Session, clock: real, m: Message): Session {
    Session(Kept(env, names, Expired(s, clock).context, m), Some(clock))
  }

  // ---- Objects ----

  method Say(env: Env, c: ActiveCaseContext, m: Message)
    modifies c`transcript
    ensures c.View() == Said(env, old(c.View()), m)
  {
    if m.reply != "" {
      c.transcript := c.transcript + [Line(Agent, env.redact(m.reply), m.now)];
    }
  }

  method Look(env: Env, names: Names, c: ActiveCaseContext, r: Lookup)
    modifies c`status, c`resolvedEntity, c`info, c`missing, c`trackers
    ensures c.IssueView() == Looked(env, names, old(c.IssueView()), r)
  {
    c.status := r.status;
    if r.entityId != "" {
      c.resolvedEntity := Some(r.entityId);
      if r.isTransaction {
        c.info := c.info[names.transaction := Words(r.entityId)];
        c.missing := RemoveFirst(c.missing, names.transaction);
      }
    }
    if Binds(r) {
      var claims := c.trackers.GetOrElse(NEW_TRACKERS).claims;
      c.trackers := Some(Trackers(claims, EvidenceOf(r), env.contradict(claims.latest, EvidenceOf(r))));
    }
  }

  /** The issue after the lookup, for the exits that keep the context object. */
  method Settle(env: Env, names: Names, c: ActiveCaseContext, m: Message, exit: Exit)
    requires exit in {AmountConflict, NotFound, ManyFound, GraphFailed, CaseOpened, Answered}
    modifies c`status, c`resolvedEntity, c`info, c`missing, c`trackers, c`noMatches, c`diagnosis
    ensures
      var looked := Looked(env, names, old(c.IssueView()), m.lookup);
      c.IssueView() ==
      if exit == CaseOpened
      then if m.lookup.status == Resolved then looked.(noMatches := 0) else looked
      else IssueAt(env, names, old(c.IssueView()), m, exit)
  {
    Look(env, names, c, m.lookup);
    if exit == AmountConflict {
      c.diagnosis := None;
    } else if exit == NotFound {
      c.noMatches := c.noMatches + 1;
    } else if exit != ManyFound && m.lookup.status == Resolved {
      c.noMatches := 0;
      if exit == Answered && m.shown.Some? && m.shown.value.cause != "" {
        c.diagnosis := m.shown;
      }
    }
  }

  /** The context object of a case that has just been opened. */
  method OpenCase(c: ActiveCaseContext, o: Opened, shown: Option<Diagnosis>) returns (made: ActiveCaseContext)
    ensures fresh(made)
    ensures made.View() == c.View().(issue := OpenedFrom(c.IssueView(), o, shown))
  {
    made := new ActiveCaseContext(OpenedFrom(c.IssueView(), o, shown), c.transcript, c.problem, c.emotion, c.subject);
  }

  /** The rest of a turn on the context object; a real case replaces it by a new one. */
  method Finish(env: Env, names: Names, c: ActiveCaseContext, a: Analysis, claimed: bool, m: Message)
    returns (exit: Exit, final: ActiveCaseContext)
    modifies c
    ensures (exit, final.View()) == Finished(env, names, old(c.View()), a, claimed, m)
    ensures final == c || fresh(final)
    ensures !Saves(exit) ==> final == c
  {
    final := c;
    exit := ExitOf(env, names, c.IssueView(), a, claimed, m);
    if exit in {AmountConflict, NotFound, ManyFound, GraphFailed, CaseOpened, Answered} {
      Settle(env, names, c, m, exit);
    }
    if Saves(exit) {
      Say(env, c, m);
    }
    if exit == CaseOpened && IsRealCase(names, m.graph.value) {
      final := OpenCase(c, m.graph.value, m.shown);
    }
  }

  /** A turn on a loaded context, which is new if none was stored. */
  method TurnOn(env: Env, names: Names, c: ActiveCaseContext, m: Message, ghost stored: bool)
    returns (exit: Exit, final: ActiveCaseContext)
    requires !stored ==> c.View() == NEW_CONTEXT
    modifies c
    ensures Kept(env, names, if stored then Some(old(c.View())) else None, m) ==
            if Saves(exit) then Some(final.View()) else if stored then Some(c.View()) else None
    ensures final == c || fresh(final)
  {
    c.Receive(env, m.text, m.subject, m.now);
    var current, a := c.Understand(env, m.analysis, m.text, m.now);
    exit, final := Finish(env, names, current, a, ClaimsAmount(names, m), m);
  }

  class ChatSessions {
    var contexts: map<string, ActiveCaseContext>
    var lastActive: map<string, real>

    /** No two sessions share a context. */
    ghost predicate Valid()
      reads this
    {
      forall i, j :: i in contexts && j in contexts && contexts[i] == contexts[j] ==> i == j
    }

    ghost function SessionOf(id: string): Session
      reads this, if id in contexts then {contexts[id]} else {}
    {
      Session(if id in contexts then Some(contexts[id].View()) else None,
              if id in lastActive then Some(lastActive[id]) else None)
    }

    constructor ()
      ensures Valid() && forall id :: SessionOf(id) == NO_SESSION
    {
      contexts, lastActive := map[], map[];
    }

    /** Loads the session's context, which is forgotten after the idle time. */
    method GetActiveContext(id: string, clock: real) returns (c: ActiveCaseContext)
      requires Valid()
      modifies this
      ensures Valid() && SessionOf(id) == Expired(old(SessionOf(id)), clock)
      ensures forall j :: j != id ==> SessionOf(j) == old(SessionOf(j))
      ensures forall j :: j in contexts ==> j in old(contexts) && contexts[j] == old(contexts)[j]
      ensures forall j :: j in contexts && j != id ==> contexts[j] != c
      ensures if id in contexts then c == contexts[id] else fresh(c)
      ensures c.View() == SessionOf(id).context.GetOrElse(NEW_CONTEXT)
    {
      if id in lastActive && clock - lastActive[id] > SESSION_IDLE_TTL_SECONDS {
        contexts := contexts - {id};
        lastActive := lastActive - {id};
      }
      if id in contexts {
        c := contexts[id];
      } else {
        c := new ActiveCaseContext(NO_ISSUE, [], "", "neutral", "");
      }
    }

    method Store(id: string, c: ActiveCaseContext)
      requires Valid() && forall j :: j in contexts && j != id ==> contexts[j] != c
      modifies this`contexts
      ensures Valid() && SessionOf(id) == old(SessionOf(id)).(context := Some(c.View()))
      ensures forall j :: j != id ==> SessionOf(j) == old(SessionOf(j))
    {
      contexts := contexts[id := c];
    }

    method Touch(id: string, clock: real)
      requires Valid()
      modifies this`lastActive
      ensures Valid() && SessionOf(id) == old(SessionOf(id)).(lastActive := Some(clock))
      ensures forall j :: j != id ==> SessionOf(j) == old(SessionOf(j))
    {
      lastActive := lastActive[id := clock];
    }

    /** A turn on the session's loaded context, which no other session has, changes only that object. */
    method TurnIn(env: Env, names: Names, id: string, c: ActiveCaseContext, m: Message)
      returns (exit: Exit, final: ActiveCaseContext)
      requires Valid() && c.View() == SessionOf(id).context.GetOrElse(NEW_CONTEXT)
      requires id in contexts ==> contexts[id] == c
      requires forall j :: j in contexts && j != id ==> contexts[j] != c
      modifies c
      ensures Valid()
      ensures Kept(env, names, old(SessionOf(id)).context, m) ==
              if Saves(exit) then Some(final.View()) else SessionOf(id).context
      ensures SessionOf(id).lastActive == old(SessionOf(id)).lastActive
      ensures forall j :: j != id ==> SessionOf(j) == old(SessionOf(j))
      ensures forall j :: j in contexts && j != id ==> contexts[j] != final
    {
      exit, final := TurnOn(env, names, c, m, id in contexts);
    }

    /** A turn of a logged-in session; the other sessions do not change. Finish says which exit it takes. */
    method Turn(env: Env, names: Names, id: string, clock: real, m: Message) returns (exit: Exit)
      requires Valid()
      modifies this, contexts.Values
      ensures Valid() && SessionOf(id) == Step(env, names, old(SessionOf(id)), clock, m)
      ensures forall j :: j != id ==> SessionOf(j) == old(SessionOf(j))
    {
      var c := GetActiveContext(id, clock);
      Touch(id, clock);
      var final;
      exit, final := TurnIn(env, names, id, c, m);
      if Saves(exit) {
        Store(id, final);
      }
    }
  }
}
