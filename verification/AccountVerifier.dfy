/** Dispatching a lookup by session and workflow, and the verdict about the account that is drawn from it. */
module AccountVerifier {
  import opened CaseTransition
  import opened Options
  import Resolver

  datatype Subject = WalletUser | Merchant | OtherSubject(name: string)

  /** A logged-in session; an empty id is not set. */
  datatype Session = Session(subject: Subject, userId: string, merchantId: string)

  datatype AccountLookup = LookupFailed | NoAccountRecord | AccountRecord(lockEvidence: bool)

  /** What the lookups for the session's ids return. */
  datatype Records = Records(txns: seq<Resolver.Txn>, scanOk: bool, account: AccountLookup, settlement: bool)

  datatype Entity =
    | NoEntity
    | TransactionEntity(txn: Resolver.Txn)
    | AccountEntity(user: string)
    | SettlementEntity(merchant: string)

  /** The resolver's answer for any kind of session. */
  datatype Answer = Answer(status: CaseStatus, entity: Entity, amount: Option<int>, owner: string, claimed: Option<int>,
                           candidates: nat, scanFoundIssue: bool)

  function Without(status: CaseStatus, entity: Entity): Answer {
    Answer(status, entity, None, "", None, 0, false)
  }

  // ---- Dispatch ----

  function WalletAnswer(r: Resolver.Resolution): Answer {
    Answer(r.status, if r.record.Some? then TransactionEntity(r.record.value) else NoEntity, r.amount, r.owner, r.claimed,
           r.candidates, r.scanFoundIssue)
  }

  /** An account-lock complaint is answered from the account's own record, whatever it says. */
  function AccountAnswer(user: string, lookup: AccountLookup): Answer {
    if user == "" then Without(InvalidSession, NoEntity)
    else
      match lookup
      case LookupFailed => Without(EvidenceError, AccountEntity(user))
      case NoAccountRecord => Without(NoMatch, AccountEntity(user))
      case AccountRecord(_) => Answer(Resolved, AccountEntity(user), None, user, None, 1, false)
  }

  function MerchantAnswer(merchant: string, found: bool): Answer {
    if merchant == "" then Without(InvalidSession, NoEntity)
    else if !found then Without(NoMatch, NoEntity)
    else Answer(Resolved, SettlementEntity(merchant), None, merchant, None, 1, false)
  }

  /** The entry point of the resolver; `lock` is the name of the account-lock workflow. */
  function ResolveCaseEvidence(env: Resolver.Env, lock: string, session: Option<Session>, records: Records,
                               c: Resolver.Criteria, hint: string): Answer
  {
    match session
    case None => Without(InvalidSession, NoEntity)
    case Some(s) =>
      if hint == lock then AccountAnswer(s.userId, records.account)
      else
        match s.subject
        case WalletUser => WalletAnswer(Resolver.Resolve(env, records.txns, s.userId, c, hint, records.scanOk))
        case Merchant => MerchantAnswer(s.merchantId, records.settlement)
        case OtherSubject(_) => Without(NeedMoreInfo, NoEntity)
  }

  predicate FoundOne(a: Answer) {
    a.status == Resolved || a.status == AmountMismatch
  }

  /** What counts as the session's own: one of the user's records, the user's account, or the merchant's
      settlement. */
  predicate IsOwn(s: Session, txns: seq<Resolver.Txn>, e: Entity) {
    match e
    case NoEntity => false
    case TransactionEntity(t) => t in txns && t.owner == s.userId != ""
    case AccountEntity(user) => user == s.userId != ""
    case SettlementEntity(merchant) => merchant == s.merchantId != ""
  }

  /** Whatever is claimed and whichever lookup is chosen, a resolved or mismatch answer is about one thing of
      the session's own, its amount is that of the record, and its owner is the session's. */
  lemma AnswerIsOwn(env: Resolver.Env, lock: string, session: Option<Session>, records: Records, c: Resolver.Criteria,
                    hint: string)
    ensures
      var a := ResolveCaseEvidence(env, lock, session, records, c, hint);
      && (FoundOne(a) ==>
            && session.Some? && IsOwn(session.value, records.txns, a.entity)
            && a.amount == (if a.entity.TransactionEntity? then a.entity.txn.amount else None)
            && a.owner == if a.entity.SettlementEntity? then session.value.merchantId else session.value.userId)
      && (!FoundOne(a) ==> a.amount == None && a.owner == "" && !a.entity.TransactionEntity?)
      && (a.candidates >= 1 <==> FoundOne(a) || a.status == MultipleCandidates)
  {
    if session.Some? && session.value.subject == WalletUser && hint != lock {
      Resolver.EvidenceIsTheRecord(env, records.txns, session.value.userId, c, hint, records.scanOk);
    }
  }

  /** Which lookup answers: the account's for a lock complaint of anyone, and otherwise the wallet user's resolver or
      the merchant's settlements; anyone else is asked for more, and without a session nothing is looked up. */
  lemma AnsweredByExactlyWhen(env: Resolver.Env, lock: string, session: Option<Session>, records: Records,
                              c: Resolver.Criteria, hint: string)
    ensures
      var a := ResolveCaseEvidence(env, lock, session, records, c, hint);
      && (session.None? ==> a.status == InvalidSession)
      && (session.Some? && hint == lock ==>
            var user, found := session.value.userId, records.account;
            && (a.status == InvalidSession <==> user == "")
            && (a.status == EvidenceError <==> user != "" && found.LookupFailed?)
            && (a.status == NoMatch <==> user != "" && found.NoAccountRecord?)
            && (a.status == Resolved <==> user != "" && found.AccountRecord?)
            && (user != "" ==> a.entity == AccountEntity(user)))
      && (session.Some? && hint != lock && session.value.subject == Merchant ==>
            var merchant := session.value.merchantId;
            && (a.status == InvalidSession <==> merchant == "")
            && (a.status == NoMatch <==> merchant != "" && !records.settlement)
            && (a.status == Resolved <==> merchant != "" && records.settlement)
            && (a.status == Resolved ==> a.entity == SettlementEntity(merchant)))
      && (session.Some? && hint != lock && session.value.subject == WalletUser ==>
            var r := Resolver.Resolve(env, records.txns, session.value.userId, c, hint, records.scanOk);
            && a.status == r.status && a.amount == r.amount && a.claimed == r.claimed && a.candidates == r.candidates
            && a.scanFoundIssue == r.scanFoundIssue
            && a.entity == if r.record.Some? then TransactionEntity(r.record.value) else NoEntity)
      && (session.Some? && hint != lock && session.value.subject.OtherSubject? ==> a.status == NeedMoreInfo)
  {
  }

  /** Of users and merchants only a wallet user is ever asked for more, exactly when the wallet resolver does,
      and never about an account lock. */
  lemma AsksForMoreExactlyWhen(env: Resolver.Env, lock: string, s: Session, records: Records, c: Resolver.Criteria,
                               hint: string)
    requires !s.subject.OtherSubject?
    ensures
      ResolveCaseEvidence(env, lock, Some(s), records, c, hint).status == NeedMoreInfo <==>
        && s.subject == WalletUser && hint != lock
        && Resolver.Resolve(env, records.txns, s.userId, c, hint, records.scanOk).status == NeedMoreInfo
  {
  }

  lemma WalletEntity(r: Resolver.Resolution)
    ensures WalletAnswer(r).entity == if r.record.Some? then TransactionEntity(r.record.value) else NoEntity
  {
  }

  /** Asking for more names no entity. */
  lemma AskingNamesNothing(env: Resolver.Env, lock: string, s: Session, records: Records, c: Resolver.Criteria,
                           hint: string)
    ensures
      var a := ResolveCaseEvidence(env, lock, Some(s), records, c, hint);
      a.status == NeedMoreInfo ==> a.entity == NoEntity
  {
    AnswerIsOwn(env, lock, Some(s), records, c, hint);
    WalletEntity(Resolver.Resolve(env, records.txns, s.userId, c, hint, records.scanOk));
  }

  // ---- The verdict ----

  datatype IssueStatus = VerifiedIssueFound | NoIssueOnAccount | InsufficientEvidence | Contradicted | NoMatchingData

  function BaseStatus(status: CaseStatus): IssueStatus {
    match status
    case Resolved | MultipleCandidates => VerifiedIssueFound
    case AmountMismatch => Contradicted
    case NeedMoreInfo | EvidenceError => InsufficientEvidence
    case _ => NoMatchingData
  }

  function MapIssueStatus(status: CaseStatus, hasContradictions: bool, scanFoundIssue: bool): IssueStatus {
    if hasContradictions && (status == Resolved || status == AmountMismatch) then Contradicted
    else
      var base := BaseStatus(status);
      if base == VerifiedIssueFound then base
      else if base == NoMatchingData && !scanFoundIssue then NoIssueOnAccount
      else base
  }

  datatype Verdict = Verdict(identified: bool, issueExists: bool, status: IssueStatus)

  predicate IsIdentified(session: Option<Session>) {
    session.Some? && (session.value.userId != "" || session.value.merchantId != "")
  }

  /** What the verifier works with: the lookup's environment, the account-lock workflow, which subjects a
      registered workflow supports (any, for one that is not registered), and whether the claims contradict
      an answer. */
  datatype Desk = Desk(resolver: Resolver.Env, lock: string, supports: (string, Subject) -> bool,
                       contradicts: Answer -> bool)

  /** The message's criteria and the workflow hint of its analysis. */
  datatype Analysed = Analysed(criteria: Resolver.Criteria, hint: string)

  function AnswerTo(desk: Desk, session: Option<Session>, records: Records, a: Analysed): Answer {
    ResolveCaseEvidence(desk.resolver, desk.lock, session, records, a.criteria, a.hint)
  }

  /** The whole verification, with its early exits. */
  function VerifyAccountIssue(desk: Desk, session: Option<Session>, workflow: string, analysis: Option<Analysed>,
                              records: Records): Verdict
  {
    if !IsIdentified(session) then Verdict(false, false, NoMatchingData)
    else if !desk.supports(workflow, session.value.subject) then Verdict(true, false, NoMatchingData)
    else if analysis.None? then Verdict(true, false, InsufficientEvidence)
    else
      var a := AnswerTo(desk, session, records, analysis.value);
      var status := MapIssueStatus(a.status, desk.contradicts(a), a.scanFoundIssue);
      Verdict(true, status == VerifiedIssueFound || status == Contradicted, status)
  }

  /** The session has an identity of a kind that the workflow supports. */
  predicate IsAdmitted(desk: Desk, session: Option<Session>, workflow: string) {
    IsIdentified(session) && desk.supports(workflow, session.value.subject)
  }

  /** The verdict over the whole function. No data matches exactly when identity or subject is turned away,
      before anything is looked up; of an admitted session the verdict is an issue exactly when a record was
      found, no issue exactly when the lookup found nothing, and insufficient exactly when there was no
      analysis, the lookup failed or it needs more. An issue is verified exactly when several records may be meant or
      one was found that the claims do not contradict, and contradicted otherwise. */
  lemma VerdictExactlyWhen(desk: Desk, session: Option<Session>, workflow: string, analysis: Option<Analysed>,
                           records: Records)
    ensures
      var v := VerifyAccountIssue(desk, session, workflow, analysis, records);
      var admitted := IsAdmitted(desk, session, workflow);
      var a := AnswerTo(desk, session, records, analysis.GetOrElse(Analysed(Resolver.NO_CRITERIA, "")));
      && (v.status == NoMatchingData <==> !admitted)
      && (v.issueExists <==> admitted && analysis.Some? && a.candidates >= 1)
      && (v.status == NoIssueOnAccount <==> admitted && analysis.Some? && a.status in {NoMatch, InvalidSession})
      && (v.status == InsufficientEvidence <==>
          admitted && (analysis.None? || a.status in {NeedMoreInfo, EvidenceError}))
      && (v.status == VerifiedIssueFound <==>
          && admitted && analysis.Some?
          && (a.status == MultipleCandidates || (a.status == Resolved && !desk.contradicts(a))))
      && (v.status == Contradicted <==>
          && admitted && analysis.Some?
          && (a.status == AmountMismatch || (a.status == Resolved && desk.contradicts(a))))
      && (v.identified <==> session.Some? && (session.value.userId != "" || session.value.merchantId != ""))
      && (admitted <==> v.identified && desk.supports(workflow, session.value.subject))
  {
    var a := AnswerTo(desk, session, records, analysis.GetOrElse(Analysed(Resolver.NO_CRITERIA, "")));
    AnswerStatuses(desk, session, records, analysis.GetOrElse(Analysed(Resolver.NO_CRITERIA, "")));
  }

  /** The statuses that an answer can have, and when a scan found issues. */
  predicate IsSound(r: Answer) {
    && r.status !in {NoStatus, OwnershipMismatch, NoIssueFound, Closed}
    && (r.candidates >= 1 <==> r.status in {Resolved, AmountMismatch, MultipleCandidates})
    && (r.scanFoundIssue ==> r.status in {Resolved, MultipleCandidates})
  }

  lemma ResolutionIsSound(env: Resolver.Env, txns: seq<Resolver.Txn>, user: string, c: Resolver.Criteria, hint: string,
                          scanOk: bool)
    ensures IsSound(WalletAnswer(Resolver.Resolve(env, txns, user, c, hint, scanOk)))
  {
  }

  lemma AccountIsSound(user: string, lookup: AccountLookup)
    ensures IsSound(AccountAnswer(user, lookup))
  {
  }

  lemma MerchantIsSound(merchant: string, found: bool)
    ensures IsSound(MerchantAnswer(merchant, found))
  {
  }

  lemma AnswerStatuses(desk: Desk, session: Option<Session>, records: Records, a: Analysed)
    ensures IsSound(AnswerTo(desk, session, records, a))
  {
    if session.Some? {
      var s := session.value;
      ResolutionIsSound(desk.resolver, records.txns, s.userId, a.criteria, a.hint, records.scanOk);
      AccountIsSound(s.userId, records.account);
      MerchantIsSound(s.merchantId, records.settlement);
    }
  }

  // ---- Issues that the verdict misses ----

  /** A wallet user whose complaint is looked up among the transactions. */
  predicate IsWalletCase(desk: Desk, s: Session, workflow: string, hint: string) {
    IsAdmitted(desk, Some(s), workflow) && s.subject == WalletUser && s.userId != "" && hint != desk.lock
  }

  /** The user's records that need attention, as a scan of the account lists them. */
  function Pending(desk: Desk, s: Session, records: Records, hint: string): seq<Resolver.Txn> {
    var env := desk.resolver;
    Resolver.Problematic(env, Resolver.Owned(records.txns, s.userId), env.services(env.lower(hint)))
  }

  /** What the customer gave misses every own record, and the fallback for an amount does not help. */
  ghost predicate Misses(desk: Desk, s: Session, records: Records, a: Analysed) {
    var env := desk.resolver;
    && Resolver.HasSearchCriteria(a.criteria)
    && Resolver.NothingMatches(env, records.txns, s.userId, a.criteria, a.hint)
    && var problematic := Resolver.Problematic(env, Resolver.Owned(records.txns, s.userId), env.services(a.hint));
       !Resolver.FallsBack(a.criteria, problematic, records.scanOk)
  }

  lemma WalletVerdict(desk: Desk, s: Session, workflow: string, a: Analysed, records: Records)
    requires IsWalletCase(desk, s, workflow, a.hint)
    ensures
      var v := VerifyAccountIssue(desk, Some(s), workflow, Some(a), records);
      var r := Resolver.Resolve(desk.resolver, records.txns, s.userId, a.criteria, a.hint, records.scanOk);
      && v.identified && (v.status == NoIssueOnAccount <==> r.status == NoMatch)
      && (v.issueExists <==> r.candidates >= 1) && (v.status == NoIssueOnAccount ==> !v.issueExists)
  {
    VerdictExactlyWhen(desk, Some(s), workflow, Some(a), records);
    ResolutionIsSound(desk.resolver, records.txns, s.userId, a.criteria, a.hint, records.scanOk);
    Resolver.EvidenceIsTheRecord(desk.resolver, records.txns, s.userId, a.criteria, a.hint, records.scanOk);
  }

  /** A wallet user's account is said to have no issue exactly when what the customer gave misses every own
      record, or nothing was given and the scan under a known workflow finds nothing pending. */
  lemma NoIssueExactlyWhen(desk: Desk, s: Session, workflow: string, a: Analysed, records: Records)
    requires IsWalletCase(desk, s, workflow, a.hint)
    ensures
      VerifyAccountIssue(desk, Some(s), workflow, Some(a), records).status == NoIssueOnAccount <==>
        || Misses(desk, s, records, a)
        || (&& !Resolver.HasSearchCriteria(a.criteria) && records.scanOk && Pending(desk, s, records, a.hint) == []
            && a.hint != "" && desk.resolver.lower(a.hint) != desk.resolver.unknown)
  {
    WalletVerdict(desk, s, workflow, a, records);
    Resolver.NoMatchExactlyWhen(desk.resolver, records.txns, s.userId, a.criteria, a.hint, records.scanOk);
  }

  /** So that verdict hides records needing attention exactly when there are some and what the customer gave
      misses every own record. */
  lemma IssuesHiddenExactlyWhen(desk: Desk, s: Session, workflow: string, a: Analysed, records: Records)
    requires IsWalletCase(desk, s, workflow, a.hint)
    ensures
      var pending := Pending(desk, s, records, a.hint);
      VerifyAccountIssue(desk, Some(s), workflow, Some(a), records).status == NoIssueOnAccount && pending != [] <==>
        pending != [] && Misses(desk, s, records, a)
  {
    NoIssueExactlyWhen(desk, s, workflow, a, records);
  }

  /** Without an amount, a bank, a reference or an id of an own record, anything given misses everything: the
      verdict is that there is no issue, whatever records the account holds. */
  lemma UnscoredAnswerHidesIssues(desk: Desk, s: Session, workflow: string, a: Analysed, records: Records)
    requires IsWalletCase(desk, s, workflow, a.hint) && Resolver.HasSearchCriteria(a.criteria)
    requires !Resolver.Given(a.criteria.amount) && a.criteria.bankName == "" && a.criteria.bankReference == ""
    requires Resolver.DirectHit(records.txns, s.userId, a.criteria).None?
    ensures VerifyAccountIssue(desk, Some(s), workflow, Some(a), records) == Verdict(true, false, NoIssueOnAccount)
  {
    WalletVerdict(desk, s, workflow, a, records);
    NoIssueExactlyWhen(desk, s, workflow, a, records);
  }

  /** A scan that finds what is pending reports an issue, and answering the question it raises turns that into
      no issue: by a time, a date or a bill code, which no search uses. */
  lemma AnsweringHidesIssues(desk: Desk, s: Session, workflow: string, hint: string, records: Records, time: string,
                             date: string, bill: string)
    requires IsWalletCase(desk, s, workflow, hint) && records.scanOk && Pending(desk, s, records, hint) != []
    requires time != "" || date != "" || bill != ""
    ensures
      var asked := Analysed(Resolver.NO_CRITERIA, hint);
      var answered := Analysed(Resolver.NO_CRITERIA.(timeText := time, dateText := date, billCode := bill), hint);
      && VerifyAccountIssue(desk, Some(s), workflow, Some(asked), records).issueExists
      && VerifyAccountIssue(desk, Some(s), workflow, Some(answered), records) == Verdict(true, false, NoIssueOnAccount)
  {
    WalletVerdict(desk, s, workflow, Analysed(Resolver.NO_CRITERIA, hint), records);
    UnscoredAnswerHidesIssues(
      desk, s, workflow,
      Analysed(Resolver.NO_CRITERIA.(timeText := time, dateText := date, billCode := bill), hint), records);
  }

  /** So does a transaction id that names no own record, given with nothing else. */
  lemma WrongIdHidesIssues(desk: Desk, s: Session, workflow: string, records: Records, id: string, hint: string)
    requires IsAdmitted(desk, Some(s), workflow) && s.subject == WalletUser && s.userId != "" && hint != desk.lock
    requires id != "" && Resolver.OwnedById(records.txns, s.userId, id) == None
    ensures
      var a := Analysed(Resolver.NO_CRITERIA.(transactionId := id), hint);
      VerifyAccountIssue(desk, Some(s), workflow, Some(a), records) == Verdict(true, false, NoIssueOnAccount)
  {
    UnscoredAnswerHidesIssues(desk, s, workflow, Analysed(Resolver.NO_CRITERIA.(transactionId := id), hint), records);
  }

  /** But not beside the amount of an own record: then that record is found. */
  lemma AmountRescuesWrongId(desk: Desk, s: Session, workflow: string, a: Analysed, records: Records, t: Resolver.Txn)
    requires IsWalletCase(desk, s, workflow, a.hint) && t in records.txns && t.owner == s.userId
    requires Resolver.Given(a.criteria.amount) && t.amount == a.criteria.amount
    ensures VerifyAccountIssue(desk, Some(s), workflow, Some(a), records).issueExists
  {
    WalletVerdict(desk, s, workflow, a, records);
    Resolver.SearchFindsNothingExactlyWhen(desk.resolver, records.txns, s.userId, a.criteria, a.hint);
    Resolver.ScoresEnoughExactlyWhen(desk.resolver, a.criteria, a.hint, t);
  }

  /** An account-lock complaint is an issue exactly when the account has a record, and no issue exactly when it
      has none: what the record says plays no part. */
  lemma LockVerdictExactlyWhen(desk: Desk, s: Session, workflow: string, analysis: Option<Analysed>, records: Records)
    requires IsAdmitted(desk, Some(s), workflow) && s.userId != "" && (analysis.Some? ==> analysis.value.hint == desk.lock)
    ensures
      var v := VerifyAccountIssue(desk, Some(s), workflow, analysis, records);
      && (v.issueExists <==> analysis.Some? && records.account.AccountRecord?)
      && (v.status == NoIssueOnAccount <==> analysis.Some? && records.account.NoAccountRecord?)
      && (v.status == InsufficientEvidence <==> analysis.None? || records.account.LookupFailed?)
  {
    VerdictExactlyWhen(desk, Some(s), workflow, analysis, records);
  }

  /** In particular the evidence of a lock changes nothing. */
  lemma LockEvidencePlaysNoPart(desk: Desk, s: Session, workflow: string, a: Analysed, records: Records, locked: bool)
    requires IsAdmitted(desk, Some(s), workflow) && s.userId != "" && a.hint == desk.lock
    ensures
      VerifyAccountIssue(desk, Some(s), workflow, Some(a), records.(account := AccountRecord(locked))).issueExists
  {
  }
}
