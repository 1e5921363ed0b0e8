/** The chat and the resolver together: what a conversation treats as verified. */
module Grounding {
  import opened CaseTransition
  import opened ChatContext
  import opened ChatTurn
  import opened ChatRuns
  import opened Options
  import Claims = CustomerClaims
  import Resolver
  import Verifier = AccountVerifier

  /** What the chat takes over from the resolver's answer. */
  function LookupOf(a: Verifier.Answer, hasResponse: bool): Lookup {
    match a.entity
    case TransactionEntity(t) => Lookup(a.status, t.id, true, a.amount, t.bankCode, hasResponse)
    case AccountEntity(user) => Lookup(a.status, user, false, a.amount, "", hasResponse)
    case SettlementEntity(merchant) => Lookup(a.status, merchant, false, a.amount, "", hasResponse)
    case NoEntity => Lookup(a.status, "", false, a.amount, "", hasResponse)
  }

  /** What decides a lookup besides the session: the records, the criteria and the workflow hint. */
  datatype Query = Query(records: Verifier.Records, criteria: Resolver.Criteria, hint: string, hasResponse: bool)

  function Answer(env: Resolver.Env, lock: string, session: Verifier.Session, q: Query): Verifier.Answer {
    Verifier.ResolveCaseEvidence(env, lock, Some(session), q.records, q.criteria, q.hint)
  }

  /** The message's lookup was made for this session, whichever lookup it was routed to, and all of the
      account's records are among `ever`. */
  ghost predicate IsLookedUpFor(env: Resolver.Env, lock: string, ever: set<Resolver.Txn>, session: Verifier.Session,
                                m: Message)
  {
    exists q :: m.lookup == LookupOf(Answer(env, lock, session, q), q.hasResponse)
                && forall t :: t in q.records.txns ==> t in ever
  }

  /** The evidence is one of the user's records with the amount it records, or the user's account or the
      merchant's settlement, without any amount. */
  ghost predicate IsOwnEvidence(ever: set<Resolver.Txn>, session: Verifier.Session, ev: Claims.Evidence) {
    || (exists t :: t in ever && t.owner == session.userId && ev == Claims.Evidence(t.id, t.amount, t.bankCode))
    || (session.userId != "" && ev == Claims.Evidence(session.userId, None, ""))
    || (session.merchantId != "" && ev == Claims.Evidence(session.merchantId, None, ""))
  }

  lemma BindingIsOwn(env: Resolver.Env, lock: string, ever: set<Resolver.Txn>, session: Verifier.Session, m: Message)
    requires IsLookedUpFor(env, lock, ever, session, m) && Binds(m.lookup)
    ensures IsOwnEvidence(ever, session, EvidenceOf(m.lookup))
  {
    var q :| m.lookup == LookupOf(Answer(env, lock, session, q), q.hasResponse)
             && forall t :: t in q.records.txns ==> t in ever;
    Verifier.AnswerIsOwn(env, lock, Some(session), q.records, q.criteria, q.hint);
    var a := Answer(env, lock, session, q);
    if a.entity.TransactionEntity? {
      var t := a.entity.txn;
      assert t in ever && EvidenceOf(m.lookup) == Claims.Evidence(t.id, t.amount, t.bankCode);
    }
  }

  lemma {:induction false} ThreadIsFromTurns(env: Env, names: ChatTurn.Names, turns: seq<Visit>, k: nat)
    requires k < |Thread(env, names, turns)|
    ensures exists i :: 0 <= i < |turns| && turns[i].message == Thread(env, names, turns)[k]
  {
    var before, last := turns[..|turns| - 1], turns[|turns| - 1];
    var thread, past := Thread(env, names, turns), Thread(env, names, before);
    assert turns[|turns| - 1].message == last.message;
    if k < |past| && thread[k] == past[k] {
      ThreadIsFromTurns(env, names, before, k);
      var i :| 0 <= i < |before| && before[i].message == past[k];
      assert turns[i].message == thread[k];
    }
  }

  /** What the chat takes over: the status always, and as a transaction exactly the record that a wallet user's lookup
      resolved or found at odds with the claimed amount. */
  lemma LookupIsTransactionExactlyWhen(env: Resolver.Env, lock: string, session: Verifier.Session, q: Query,
                                       t: Resolver.Txn)
    ensures
      var r := LookupOf(Answer(env, lock, session, q), q.hasResponse);
      var found := Resolver.Resolve(env, q.records.txns, session.userId, q.criteria, q.hint, q.records.scanOk);
      && (r.isTransaction <==>
          session.subject == Verifier.WalletUser && q.hint != lock && found.status in {Resolved, AmountMismatch})
      && (r.isTransaction && found.record == Some(t) ==>
            r == Lookup(found.status, t.id, true, t.amount, t.bankCode, q.hasResponse))
  {
    Verifier.AnsweredByExactlyWhen(env, lock, Some(session), q.records, q.criteria, q.hint);
    Verifier.AnswerIsOwn(env, lock, Some(session), q.records, q.criteria, q.hint);
    Resolver.EvidenceIsTheRecord(env, q.records.txns, session.userId, q.criteria, q.hint, q.records.scanOk);
  }

  /** In every run of a session whose lookups are made for it, whatever the messages claim, however they
      are routed and however cases come and go, the evidence bound to the stored context is the
      session's own. */
  lemma BoundEvidenceIsOwn(env: Env, names: ChatTurn.Names, turns: seq<Visit>,
                           resolver: Resolver.Env, lock: string, ever: set<Resolver.Txn>, session: Verifier.Session)
    requires forall i :: 0 <= i < |turns| ==> IsLookedUpFor(resolver, lock, ever, session, turns[i].message)
    ensures
      var s := Run(env, names, turns);
      s.context.Some? && s.context.value.issue.trackers.Some? ==>
        var ev := s.context.value.issue.trackers.value.evidence;
        ev == NO_EVIDENCE || IsOwnEvidence(ever, session, ev)
  {
    var s := Run(env, names, turns);
    ContextIsItsThread(env, names, turns);
    if s.context.Some? && s.context.value.issue.trackers.Some? {
      var ev := s.context.value.issue.trackers.value.evidence;
      var thread := Thread(env, names, turns);
      assert IsBound(ev, thread);
      if ev != NO_EVIDENCE {
        var k :| 0 <= k < |thread| && Binds(thread[k].lookup) && ev == EvidenceOf(thread[k].lookup);
        ThreadIsFromTurns(env, names, turns, k);
        var i :| 0 <= i < |turns| && turns[i].message == thread[k];
        BindingIsOwn(resolver, lock, ever, session, turns[i].message);
      }
    }
  }

  /** For a wallet user or a merchant the rule about repeating an issue applies only when the workflow that
      the turn is handled under is the placeholder for none in another spelling, or that of the case is the
      placeholder: under any real workflow the resolver never asks for more. */
  lemma InsistenceNeedsUnknownWorkflow(env: Env, names: ChatTurn.Names, c: Context, m: Message,
                                       resolver: Resolver.Env, lock: string, session: Verifier.Session, q: Query)
    requires env.unknown == resolver.unknown && !session.subject.OtherSubject?
    requires q.hint == CourseOf(env, names, c, m).analysis.core.hint
    requires m.lookup == LookupOf(Answer(resolver, lock, session, q), q.hasResponse)
    requires CourseOf(env, names, c, m).exit == NotFound && m.lookup.status != NoMatch
    ensures
      var t := CourseOf(env, names, c, m);
      && t.analysis.core.hint != "" && resolver.lower(t.analysis.core.hint) == env.unknown
      && (t.understood.issue.workflow == t.analysis.core.hint || t.analysis.core.hint != env.unknown)
  {
    NotFoundOtherwise(env, names, c, m);
    LookupStatus(Answer(resolver, lock, session, q), q.hasResponse);
    Verifier.AsksForMoreExactlyWhen(resolver, lock, session, q.records, q.criteria, q.hint);
    Resolver.AsksForMoreExactlyWhen(resolver, q.records.txns, session.userId, q.criteria, q.hint, q.records.scanOk);
  }

  /** In full: it applies exactly to a wallet user who repeats such an issue while nothing is given, nothing is
      pending and the workflow is that placeholder. */
  lemma InsistenceExactlyWhen(env: Env, names: ChatTurn.Names, c: Context, m: Message,
                              resolver: Resolver.Env, lock: string, session: Verifier.Session, q: Query)
    requires !session.subject.OtherSubject?
    requires q.hint == CourseOf(env, names, c, m).analysis.core.hint
    requires m.lookup == LookupOf(Answer(resolver, lock, session, q), q.hasResponse)
    ensures
      CourseOf(env, names, c, m).exit == NotFound && m.lookup.status != NoMatch <==>
        && Repeats(env, names, c, m)
        && session.subject == Verifier.WalletUser && session.userId != "" && q.hint != lock
        && !Resolver.HasSearchCriteria(q.criteria) && q.records.scanOk
        && Resolver.Problematic(resolver, Resolver.Owned(q.records.txns, session.userId),
                                resolver.services(resolver.lower(q.hint))) == []
        && q.hint != "" && resolver.lower(q.hint) == resolver.unknown
  {
    var answer := Answer(resolver, lock, session, q);
    LookupStatus(answer, q.hasResponse);
    Verifier.AsksForMoreExactlyWhen(resolver, lock, session, q.records, q.criteria, q.hint);
    Resolver.AsksForMoreExactlyWhen(resolver, q.records.txns, session.userId, q.criteria, q.hint, q.records.scanOk);
    Verifier.AskingNamesNothing(resolver, lock, session, q.records, q.criteria, q.hint);
    RepeatingKnowsHint(env, names, c, m);
    if m.lookup.status != NoMatch {
      InsistsExactlyWhen(env, names, c, m);
    }
  }

  lemma RepeatingKnowsHint(env: Env, names: ChatTurn.Names, c: Context, m: Message)
    ensures Repeats(env, names, c, m) ==> CourseOf(env, names, c, m).analysis.core.hint != ""
  {
    ActiveWorkflowGoverns(env, Received(env, c, m.text, m.subject, m.now), m.analysis, m.text, m.now);
  }

  lemma LookupStatus(a: Verifier.Answer, hasResponse: bool)
    ensures LookupOf(a, hasResponse).status == a.status
  {
  }
}
