/** What happens when staff open a chat ticket: whether it is investigated, the evidence that loads for it,
    and what the ticket then asks for. */
module TicketInvestigation {
  import opened Options
  import opened Resolver
  import ResolverAnswers
  import TicketStore

  datatype Workflow =
    | WalletTopup
    | TrainTicket
    | UtilityBill
    | FraudAccountLock
    | MerchantSettlementDelay
    | OtherWorkflow

  datatype Source =
    | Transaction
    | ReconciliationStatus
    | WalletLedger
    | TrainProvider
    | UtilityProvider
    | RefundStatus
    | AccountStatus
    | FraudCase
    | MerchantProfile
    | MerchantBankAccount
    | MerchantSettlementLedger
    | MerchantPayout
    | SettlementBatch
    | BankTransferReceipt

  function SourcesOf(w: Workflow): seq<Source> {
    match w
    case WalletTopup => [Transaction, ReconciliationStatus]
    case TrainTicket => [Transaction, WalletLedger, TrainProvider, RefundStatus]
    case UtilityBill => [Transaction, WalletLedger, UtilityProvider, RefundStatus]
    case FraudAccountLock => [AccountStatus, FraudCase]
    case MerchantSettlementDelay =>
      [MerchantProfile, MerchantBankAccount, MerchantSettlementLedger, MerchantPayout, SettlementBatch, BankTransferReceipt]
    case OtherWorkflow => []
  }

  /** The sources that high confidence needs. */
  function KeySources(w: Workflow): seq<Source> {
    match w
    case WalletTopup => [Transaction, ReconciliationStatus]
    case TrainTicket => [Transaction, TrainProvider]
    case UtilityBill => [Transaction, UtilityProvider]
    case FraudAccountLock => [AccountStatus, FraudCase]
    case MerchantSettlementDelay => [MerchantProfile]
    case OtherWorkflow => []
  }

  datatype EntityKind = TransactionEntity | AccountEntity | MerchantEntity | NoEntity

  function KindOf(w: Workflow): EntityKind {
    match w
    case WalletTopup | TrainTicket | UtilityBill => TransactionEntity
    case FraudAccountLock => AccountEntity
    case MerchantSettlementDelay => MerchantEntity
    case OtherWorkflow => NoEntity
  }

  /** How the transaction of a ticket was pinned down. */
  datatype Pinned =
    | DirectId
    | ResolvedBySearch
    | NoIdentity
    | NoSearchCriteria
    | SeveralMatch
    | NothingMatches
    | SearchFailed

  /** What an investigation reads of a ticket: the extracted texts and the complainant's ids, without
      surrounding whitespace. The second ids are the extracted ones. */
  datatype Case = Case(
    workflow: Workflow, transactionId: string, orderId: string, amount: string, bankName: string,
    bankReference: string, timeText: string, dateText: string,
    userId: string, extractedUserId: string, merchantId: string, extractedMerchantId: string)

  /** The evidence that loaded, and the workflow as the lookup refined it. */
  datatype Fetched = Fetched(loaded: set<Source>, workflow: Workflow, identityChecked: bool, facts: seq<string>)

  /** The rule engine's decision; an engine that fails decides nothing. */
  datatype Ruled = Ruled(action: TicketStore.Action, approvalRequired: bool, code: string)

  const NO_RULING := Ruled(TicketStore.Unset, false, "")

  /** How far an investigation came, which decides its wording. */
  datatype Stage =
    | NoTable
    | NotPinned(kind: EntityKind, how: Pinned)
    | FetchFailed
    | Judged(resolved: bool, ruling: Ruled)

  datatype Words = Words(issue: string, location: string, bottleneck: string, why: string)

  /** The rest of the system: what is read of a ticket, which texts are only labels, reading a number, the
      transactions and their search, the evidence lookup and the rules, and the wording. A lookup or engine
      without a result failed; `isManual` holds of the actions that only ask for a review. */
  datatype Desk = Desk(
    read: TicketStore.TicketData -> Case, isLabel: string -> bool, toInt: string -> Option<int>,
    search: Resolver.Env, txns: Option<seq<Txn>>, hintOf: Workflow -> string,
    fetch: (Workflow, string) -> Option<Fetched>, rules: Fetched -> Option<Ruled>,
    isManual: TicketStore.Action -> bool, risk: (Workflow, TicketStore.Action, bool) -> TicketStore.Risk,
    title: (Workflow, Source) -> string, nameOf: EntityKind -> string, gap: (EntityKind, Pinned) -> string,
    fetchGap: string, words: Stage -> Words, identityLabel: string)

  predicate IsPlaceholder(desk: Desk, text: string) {
    text == "" || desk.isLabel(text)
  }

  function Clean(desk: Desk, text: string): string {
    if IsPlaceholder(desk, text) then "" else text
  }

  function FirstGiven(a: string, b: string): string {
    if a != "" then a else b
  }

  // ---- The gate ----

  predicate HasCriterion(desk: Desk, t: Case) {
    || !IsPlaceholder(desk, t.amount) || !IsPlaceholder(desk, t.bankName) || !IsPlaceholder(desk, t.bankReference)
    || !IsPlaceholder(desk, t.timeText) || !IsPlaceholder(desk, t.dateText)
  }

  /** Only a ticket that passes this is investigated when it is opened. */
  predicate HasResolvableEntity(desk: Desk, t: Case) {
    match KindOf(t.workflow)
    case TransactionEntity =>
      || !IsPlaceholder(desk, t.transactionId) || !IsPlaceholder(desk, t.orderId)
      || (t.userId != "" && HasCriterion(desk, t))
    case AccountEntity => t.userId != "" || !IsPlaceholder(desk, t.extractedUserId)
    case MerchantEntity => t.merchantId != "" || !IsPlaceholder(desk, t.extractedMerchantId)
    case NoEntity => false
  }

  // ---- Evidence ----

  function Titles(desk: Desk, w: Workflow, sources: seq<Source>, loaded: set<Source>, present: bool): seq<string> {
    if sources == [] then []
    else
      var last := sources[|sources| - 1];
      var before := Titles(desk, w, sources[..|sources| - 1], loaded, present);
      if (last in loaded) == present then before + [desk.title(w, last)] else before
  }

  function Checklist(desk: Desk, w: Workflow, sources: seq<Source>, loaded: set<Source>): (rows: seq<(string, bool)>)
    ensures |rows| == |sources|
    ensures forall i :: 0 <= i < |sources| ==> rows[i] == (desk.title(w, sources[i]), sources[i] in loaded)
  {
    if sources == [] then []
    else
      var last := sources[|sources| - 1];
      Checklist(desk, w, sources[..|sources| - 1], loaded) + [(desk.title(w, last), last in loaded)]
  }

  method BuildEvidenceSummary(desk: Desk, w: Workflow, loaded: set<Source>)
    returns (summary: seq<(string, bool)>, missing: seq<string>)
    ensures summary == Checklist(desk, w, SourcesOf(w), loaded)
    ensures missing == Titles(desk, w, SourcesOf(w), loaded, false)
  {
    var sources := SourcesOf(w);
    summary, missing := [], [];
    var i := 0;
    while i < |sources|
      invariant 0 <= i <= |sources|
      invariant summary == Checklist(desk, w, sources[..i], loaded)
      invariant missing == Titles(desk, w, sources[..i], loaded, false)
    {
      var present := sources[i] in loaded;
      summary := summary + [(desk.title(w, sources[i]), present)];
      if !present {
        missing := missing + [desk.title(w, sources[i])];
      }
      assert sources[..i + 1][..i] == sources[..i];
      i := i + 1;
    }
    assert sources[..i] == sources;
  }

  function AllTitles(desk: Desk, w: Workflow, sources: seq<Source>): seq<string> {
    if sources == [] then []
    else AllTitles(desk, w, sources[..|sources| - 1]) + [desk.title(w, sources[|sources| - 1])]
  }

  lemma {:induction false} TitleCounts(desk: Desk, w: Workflow, sources: seq<Source>, loaded: set<Source>, x: string)
    ensures multiset(Titles(desk, w, sources, loaded, true))[x] + multiset(Titles(desk, w, sources, loaded, false))[x] ==
            multiset(AllTitles(desk, w, sources))[x]
  {
    if sources != [] {
      TitleCounts(desk, w, sources[..|sources| - 1], loaded, x);
    }
  }

  lemma {:induction false} NothingMissing(desk: Desk, w: Workflow, sources: seq<Source>, loaded: set<Source>)
    ensures Titles(desk, w, sources, loaded, false) == [] <==> forall s :: s in sources ==> s in loaded
  {
    if sources != [] {
      NothingMissing(desk, w, sources[..|sources| - 1], loaded);
      assert sources == sources[..|sources| - 1] + [sources[|sources| - 1]];
    }
  }

  /** Every source is reported once, as checked or as missing. */
  lemma SummaryPartitions(desk: Desk, w: Workflow, loaded: set<Source>)
    ensures
      var sources := SourcesOf(w);
      && multiset(Titles(desk, w, sources, loaded, true)) + multiset(Titles(desk, w, sources, loaded, false)) ==
         multiset(AllTitles(desk, w, sources))
      && (Titles(desk, w, sources, loaded, false) == [] <==> forall s :: s in sources ==> s in loaded)
  {
    var sources := SourcesOf(w);
    NothingMissing(desk, w, sources, loaded);
    var all := multiset(Titles(desk, w, sources, loaded, true)) + multiset(Titles(desk, w, sources, loaded, false));
    forall x
      ensures all[x] == multiset(AllTitles(desk, w, sources))[x]
    {
      TitleCounts(desk, w, sources, loaded, x);
    }
  }

  predicate HasAny(sources: seq<Source>, loaded: set<Source>) {
    exists i :: 0 <= i < |sources| && sources[i] in loaded
  }

  predicate HasAll(sources: seq<Source>, loaded: set<Source>) {
    forall i :: 0 <= i < |sources| ==> sources[i] in loaded
  }

  function Confidence(desk: Desk, w: Workflow, resolved: bool, loaded: set<Source>, action: TicketStore.Action)
    : TicketStore.Confidence
  {
    if !resolved || !HasAll(KeySources(w), loaded) then TicketStore.Low
    else if desk.isManual(action) then TicketStore.Medium
    else TicketStore.High
  }

  // ---- The entity ----

  function CriteriaOf(desk: Desk, t: Case): Criteria {
    Criteria(Clean(desk, t.transactionId), Clean(desk, t.orderId), "", desk.toInt(t.amount), Clean(desk, t.bankName),
             Clean(desk, t.bankReference), Clean(desk, t.timeText), Clean(desk, t.dateText))
  }

  /** The transaction a ticket is about: the id it names, or the only record its criteria find. */
  function ResolveTransactionId(desk: Desk, t: Case): (string, Pinned) {
    var c := CriteriaOf(desk, t);
    var user := Clean(desk, t.userId);
    if FirstGiven(c.transactionId, c.orderId) != "" then (FirstGiven(c.transactionId, c.orderId), DirectId)
    else if user == "" then ("", NoIdentity)
    else if !HasSearchCriteria(c) then ("", NoSearchCriteria)
    else if desk.txns.None? then ("", SearchFailed)
    else
      var matches := Search(desk.search, desk.txns.value, user, c, desk.hintOf(t.workflow));
      if |matches| == 1 then (matches[0].id, ResolvedBySearch)
      else if |matches| > 1 then ("", SeveralMatch)
      else ("", NothingMatches)
  }

  /** A searched id is that of the only record of the complainant's own account that scores enough. */
  lemma SearchedIdIsOwn(desk: Desk, t: Case)
    ensures
      var (id, how) := ResolveTransactionId(desk, t);
      && (how == ResolvedBySearch ==>
            && desk.txns.Some?
            && var found := Search(desk.search, desk.txns.value, t.userId, CriteriaOf(desk, t), desk.hintOf(t.workflow));
               exists r :: r in desk.txns.value && r.owner == t.userId && r.id == id && found == [r])
      && (how !in {DirectId, ResolvedBySearch} ==> id == "")
      && (how == DirectId <==> !IsPlaceholder(desk, t.transactionId) || !IsPlaceholder(desk, t.orderId))
  {
    var (id, how) := ResolveTransactionId(desk, t);
    if how == ResolvedBySearch {
      var c, hint := CriteriaOf(desk, t), desk.hintOf(t.workflow);
      SoleMatch(desk.search, desk.txns.value, t.userId, c, hint);
      var matches := Search(desk.search, desk.txns.value, t.userId, c, hint);
      assert matches == [matches[0]];
    }
  }

  /** What the gate lets through without anything to search: a complainant whose id is only a label, or
      whose one criterion is an amount that is not a number other than zero. */
  lemma GateMissesExactlyWhen(desk: Desk, t: Case)
    requires KindOf(t.workflow) == TransactionEntity && HasResolvableEntity(desk, t)
    ensures
      var how := ResolveTransactionId(desk, t).1;
      var named := !IsPlaceholder(desk, t.transactionId) || !IsPlaceholder(desk, t.orderId);
      && (how == NoIdentity <==> !named && desk.isLabel(t.userId))
      && (how == NoSearchCriteria <==>
          && !named && !desk.isLabel(t.userId)
          && IsPlaceholder(desk, t.bankName) && IsPlaceholder(desk, t.bankReference)
          && IsPlaceholder(desk, t.timeText) && IsPlaceholder(desk, t.dateText)
          && !Given(desk.toInt(t.amount)))
  {
  }

  function EntityOf(desk: Desk, t: Case): (string, Pinned) {
    match KindOf(t.workflow)
    case TransactionEntity => ResolveTransactionId(desk, t)
    case AccountEntity => Direct(FirstGiven(Clean(desk, t.userId), Clean(desk, t.extractedUserId)))
    case MerchantEntity => Direct(FirstGiven(Clean(desk, t.merchantId), Clean(desk, t.extractedMerchantId)))
    case NoEntity => Direct("")
  }

  function Direct(id: string): (string, Pinned) {
    (id, if id != "" then DirectId else NoIdentity)
  }

  /** A text that stands for an id. */
  predicate IsId(desk: Desk, text: string) {
    text != "" && !desk.isLabel(text)
  }

  /** Whose account or settlement is investigated: the complainant's own, or else the extracted one. A transaction is
      the one named, a transaction id before an order id. */
  lemma EntityExactlyWhen(desk: Desk, t: Case)
    ensures
      var (id, how) := EntityOf(desk, t);
      match t.workflow
      case FraudAccountLock =>
        && id == (if IsId(desk, t.userId) then t.userId
                  else if IsId(desk, t.extractedUserId) then t.extractedUserId else "")
        && how == if id == "" then NoIdentity else DirectId
      case MerchantSettlementDelay =>
        && id == (if IsId(desk, t.merchantId) then t.merchantId
                  else if IsId(desk, t.extractedMerchantId) then t.extractedMerchantId else "")
        && how == if id == "" then NoIdentity else DirectId
      case OtherWorkflow => id == ""
      case _ =>
        && (how == DirectId <==> IsId(desk, t.transactionId) || IsId(desk, t.orderId))
        && (how == DirectId ==> id == if IsId(desk, t.transactionId) then t.transactionId else t.orderId)
  {
  }

  /** The gate lets in a wallet, ticket or bill case that names an id, or a known complainant who gave something to
      search by; an account case with any user id and a merchant case with any merchant id; and no other. */
  lemma GateExactlyWhen(desk: Desk, t: Case)
    ensures
      HasResolvableEntity(desk, t) <==>
        match t.workflow
        case FraudAccountLock => t.userId != "" || IsId(desk, t.extractedUserId)
        case MerchantSettlementDelay => t.merchantId != "" || IsId(desk, t.extractedMerchantId)
        case OtherWorkflow => false
        case _ =>
          || IsId(desk, t.transactionId) || IsId(desk, t.orderId)
          || (&& t.userId != ""
              && (|| IsId(desk, t.amount) || IsId(desk, t.bankName) || IsId(desk, t.bankReference)
                  || IsId(desk, t.timeText) || IsId(desk, t.dateText)))
  {
  }

  /** What the ticket can be searched by: every text that is no label. */
  function Searchable(desk: Desk, t: Case): Criteria {
    Criteria("", "", "", desk.toInt(t.amount), if IsId(desk, t.bankName) then t.bankName else "",
             if IsId(desk, t.bankReference) then t.bankReference else "", if IsId(desk, t.timeText) then t.timeText else "",
             if IsId(desk, t.dateText) then t.dateText else "")
  }

  /** How a transaction that the ticket does not name is pinned down, from the complainant's own records that score
      enough: the only one, or else why there is none. */
  lemma PinnedExactlyWhen(desk: Desk, t: Case)
    requires KindOf(t.workflow) == TransactionEntity && !IsId(desk, t.transactionId) && !IsId(desk, t.orderId)
    ensures
      var (id, how) := EntityOf(desk, t);
      var c := Searchable(desk, t);
      var searched := IsId(desk, t.userId) && !ResolverAnswers.GaveNothing(c) && desk.txns.Some?;
      var own := ResolverAnswers.Matching(
        desk.txns.GetOrElse([]), ResolverAnswers.OwnEnough(desk.search, t.userId, c, desk.hintOf(t.workflow)));
      && (how == NoIdentity <==> !IsId(desk, t.userId))
      && (how == NoSearchCriteria <==> IsId(desk, t.userId) && ResolverAnswers.GaveNothing(c))
      && (how == SearchFailed <==> IsId(desk, t.userId) && !ResolverAnswers.GaveNothing(c) && desk.txns.None?)
      && (how == ResolvedBySearch <==> searched && |own| == 1)
      && (how == SeveralMatch <==> searched && |own| > 1)
      && (how == NothingMatches <==> searched && own == [])
      && id == (if how == ResolvedBySearch then own[0].id else "")
  {
    var c, hint := CriteriaOf(desk, t), desk.hintOf(t.workflow);
    assert c == Searchable(desk, t);
    ResolverAnswers.GaveNothingExactlyWhen(c);
    ResolverAnswers.SearchMatches(desk.search, desk.txns.GetOrElse([]), t.userId, c, hint);
  }

  // ---- The investigation ----

  /** An investigation that resolved nothing, with its gaps and its checklist. */
  function Unresolved(w: Words, kind: string, id: string, missing: seq<string>, checklist: seq<(string, bool)>)
    : TicketStore.Investigation
  {
    TicketStore.Investigation(false, kind, id, checklist, missing, [], [], w.issue, w.location, w.bottleneck, w.why,
                              Some(TicketStore.Low), TicketStore.Unset, false, TicketStore.Unrated)
  }

  /** The evidence that the lookup returned, if there was one and it worked. */
  function Evidence(desk: Desk, t: Case): Option<Fetched> {
    var id := EntityOf(desk, t).0;
    if t.workflow == OtherWorkflow || id == "" then None else desk.fetch(t.workflow, id)
  }

  function RulingOn(desk: Desk, f: Fetched): Ruled {
    desk.rules(f).GetOrElse(NO_RULING)
  }

  function Investigate(desk: Desk, t: Case): TicketStore.Investigation {
    var (id, how) := EntityOf(desk, t);
    var kind := KindOf(t.workflow);
    var e := Evidence(desk, t);
    var unchecked := Checklist(desk, t.workflow, SourcesOf(t.workflow), {});
    if t.workflow == OtherWorkflow then Unresolved(desk.words(NoTable), desk.nameOf(NoEntity), "", [], [])
    else if id == "" then
      Unresolved(desk.words(NotPinned(kind, how)), desk.nameOf(kind), "", [desk.gap(kind, how)], unchecked)
    else if e.None? then Unresolved(desk.words(FetchFailed), desk.nameOf(kind), id, [desk.fetchGap], unchecked)
    else
      var f, r := e.value, RulingOn(desk, e.value);
      var sources := SourcesOf(f.workflow);
      var resolved := HasAny(sources, f.loaded);
      var w := desk.words(Judged(resolved, r));
      TicketStore.Investigation(
        resolved, desk.nameOf(kind), id, Checklist(desk, f.workflow, sources, f.loaded),
        Titles(desk, f.workflow, sources, f.loaded, false),
        (if f.identityChecked then [desk.identityLabel] else []) + Titles(desk, f.workflow, sources, f.loaded, true),
        f.facts, w.issue, w.location, w.bottleneck, w.why,
        Some(Confidence(desk, f.workflow, resolved, f.loaded, r.action)),
        r.action, r.approvalRequired, desk.risk(f.workflow, r.action, r.approvalRequired))
  }

  /** The investigation made when a ticket is opened: none when the gate is closed. */
  function InvestigationOf(desk: Desk): TicketStore.TicketData -> Option<TicketStore.Investigation> {
    ticket =>
      var t := desk.read(ticket);
      if HasResolvableEntity(desk, t) then Some(Investigate(desk, t)) else None
  }

  function Opened(desk: Desk, ticket: TicketStore.TicketData): TicketStore.TicketData {
    TicketStore.Seen(InvestigationOf(desk), ticket)
  }

  /** Evidence of the workflow that the lookup settled on loaded. */
  predicate IsGrounded(desk: Desk, t: Case) {
    var e := Evidence(desk, t);
    e.Some? && HasAny(SourcesOf(e.value.workflow), e.value.loaded)
  }

  /** A ticket that the gate keeps out is opened unchanged. Any other asks for an approval exactly when
      evidence of the settled workflow loaded and the rules ask for it on that evidence; without evidence it
      asks for a manual review at low confidence, whatever the rules or the chat said. */
  lemma ApprovalExactlyWhen(desk: Desk, ticket: TicketStore.TicketData)
    ensures
      var t, o := desk.read(ticket), Opened(desk, ticket);
      var gate := HasResolvableEntity(desk, t);
      && (!gate ==> o == ticket)
      && (o.advice.approvalRequired <==>
          || (!gate && ticket.advice.approvalRequired)
          || (gate && IsGrounded(desk, t) && RulingOn(desk, Evidence(desk, t).value).approvalRequired))
      && (gate && !IsGrounded(desk, t) ==>
            o.advice.action == TicketStore.ManualReview && o.confidence == TicketStore.Low)
  {
  }

  /** An opened ticket has high confidence exactly when the gate kept it out and the chat gave it, or the gate
      let it in, every key source of a known settled workflow loaded and the rules ask for more than a
      review. */
  lemma ConfidentExactlyWhen(desk: Desk, ticket: TicketStore.TicketData)
    ensures
      var t := desk.read(ticket);
      var gate, e := HasResolvableEntity(desk, t), Evidence(desk, t);
      Opened(desk, ticket).confidence == TicketStore.High <==>
        || (!gate && ticket.confidence == TicketStore.High)
        || (&& gate && e.Some? && e.value.workflow != OtherWorkflow
            && HasAll(KeySources(e.value.workflow), e.value.loaded)
            && !desk.isManual(RulingOn(desk, e.value).action))
  {
    var e := Evidence(desk, desk.read(ticket));
    if e.Some? && e.value.workflow != OtherWorkflow {
      KeySourceIsSource(e.value.workflow, e.value.loaded);
    }
  }

  /** The sources that a confident judgement of each workflow rests on all loaded. */
  predicate RestsOn(w: Workflow, loaded: set<Source>) {
    match w
    case WalletTopup => Transaction in loaded && ReconciliationStatus in loaded
    case TrainTicket => Transaction in loaded && TrainProvider in loaded
    case UtilityBill => Transaction in loaded && UtilityProvider in loaded
    case FraudAccountLock => AccountStatus in loaded && FraudCase in loaded
    case MerchantSettlementDelay => MerchantProfile in loaded
    case OtherWorkflow => false
  }

  lemma KeySourcesAre(w: Workflow, loaded: set<Source>)
    requires w != OtherWorkflow
    ensures HasAll(KeySources(w), loaded) <==> RestsOn(w, loaded)
    ensures forall s :: s in KeySources(w) ==> s in SourcesOf(w)
  {
    var keys := KeySources(w);
    assert |keys| >= 1 && (HasAll(keys, loaded) ==> keys[0] in loaded);
    assert |keys| > 1 && HasAll(keys, loaded) ==> keys[1] in loaded;
    match w
    case WalletTopup | FraudAccountLock =>
    case TrainTicket | UtilityBill => assert SourcesOf(w)[2] == keys[1] && SourcesOf(w)[0] == keys[0];
    case MerchantSettlementDelay => assert SourcesOf(w)[0] == keys[0];
  }

  /** So an opened ticket's confidence is high exactly with the sources named for its workflow and an action beyond a
      review, medium with a review instead, and low without those sources. */
  lemma ConfidenceRestsOn(desk: Desk, ticket: TicketStore.TicketData)
    ensures
      var t, o := desk.read(ticket), Opened(desk, ticket);
      HasResolvableEntity(desk, t) ==>
        var e := Evidence(desk, t);
        var rests := e.Some? && RestsOn(e.value.workflow, e.value.loaded);
        && (o.confidence == TicketStore.High <==> rests && !desk.isManual(RulingOn(desk, e.value).action))
        && (o.confidence == TicketStore.Medium <==> rests && desk.isManual(RulingOn(desk, e.value).action))
        && (o.confidence == TicketStore.Low <==> !rests)
  {
    var e := Evidence(desk, desk.read(ticket));
    if e.Some? && e.value.workflow != OtherWorkflow {
      KeySourcesAre(e.value.workflow, e.value.loaded);
      KeySourceIsSource(e.value.workflow, e.value.loaded);
    }
  }

  lemma KeySourceIsSource(w: Workflow, loaded: set<Source>)
    requires w != OtherWorkflow
    ensures HasAll(KeySources(w), loaded) ==> HasAny(SourcesOf(w), loaded)
  {
    assert SourcesOf(w)[0] == KeySources(w)[0];
  }

  /** What an investigation that got its evidence reports: it is resolved exactly when some source of the settled
      workflow loaded, advises what the rules say, and names what was checked and what is missing. */
  lemma JudgedReports(desk: Desk, t: Case)
    requires Evidence(desk, t).Some?
    ensures
      var i, f := Investigate(desk, t), Evidence(desk, t).value;
      var r, sources := RulingOn(desk, f), SourcesOf(f.workflow);
      var checked := Titles(desk, f.workflow, sources, f.loaded, true);
      && (i.resolved <==> exists s :: s in sources && s in f.loaded)
      && i.entityType == desk.nameOf(KindOf(t.workflow)) && i.entityId == EntityOf(desk, t).0 != ""
      && i.action == r.action && i.approvalRequired == r.approvalRequired && i.facts == f.facts
      && i.risk == desk.risk(f.workflow, r.action, r.approvalRequired)
      && i.checked == (if f.identityChecked then [desk.identityLabel] + checked else checked)
      && i.missing == Titles(desk, f.workflow, sources, f.loaded, false)
      && |i.checklist| == |sources|
      && (forall k :: 0 <= k < |sources| ==>
            i.checklist[k] == (desk.title(f.workflow, sources[k]), sources[k] in f.loaded))
      && Words(i.issue, i.location, i.bottleneck, i.why) == desk.words(Judged(i.resolved, r))
  {
    var f := Evidence(desk, t).value;
    HasAnyExactlyWhen(SourcesOf(f.workflow), f.loaded);
  }

  lemma HasAnyExactlyWhen(sources: seq<Source>, loaded: set<Source>)
    ensures HasAny(sources, loaded) <==> exists s :: s in sources && s in loaded
  {
    if s :| s in sources && s in loaded {
      var i :| 0 <= i < |sources| && sources[i] == s;
    }
  }

  /** One without evidence reports nothing but why: an unknown workflow, an entity that was not pinned down, or a lookup
      that failed; every source of the workflow is listed as missing. */
  lemma UnjudgedReports(desk: Desk, t: Case)
    requires Evidence(desk, t).None?
    ensures
      var i, (id, how) := Investigate(desk, t), EntityOf(desk, t);
      var kind, known := KindOf(t.workflow), t.workflow != OtherWorkflow;
      && !i.resolved && i.checked == [] && i.facts == [] && i.action == TicketStore.Unset && !i.approvalRequired
      && i.confidence == Some(TicketStore.Low) && i.risk == TicketStore.Unrated
      && i.entityType == desk.nameOf(kind) && i.entityId == (if known then id else "")
      && i.missing == (if !known then [] else if id == "" then [desk.gap(kind, how)] else [desk.fetchGap])
      && |i.checklist| == |SourcesOf(t.workflow)|
      && (forall k :: 0 <= k < |i.checklist| ==> i.checklist[k] == (desk.title(t.workflow, SourcesOf(t.workflow)[k]), false))
      && Words(i.issue, i.location, i.bottleneck, i.why) ==
         desk.words(if !known then NoTable else if id == "" then NotPinned(kind, how) else FetchFailed)
  {
  }

  /** An investigation behind the gate that resolves nothing always names a gap, unless the lookup moved the
      ticket to an unknown workflow; and it names none exactly then or when every source loaded. */
  lemma GapsNamedExactlyWhen(desk: Desk, t: Case)
    requires HasResolvableEntity(desk, t)
    ensures
      var e, i := Evidence(desk, t), Investigate(desk, t);
      && (i.missing == [] <==> e.Some? && forall s :: s in SourcesOf(e.value.workflow) ==> s in e.value.loaded)
      && (!i.resolved && i.missing == [] ==> e.value.workflow == OtherWorkflow)
  {
    var e := Evidence(desk, t);
    if e.Some? {
      NothingMissing(desk, e.value.workflow, SourcesOf(e.value.workflow), e.value.loaded);
      if e.value.workflow != OtherWorkflow {
        assert SourcesOf(e.value.workflow)[0] in SourcesOf(e.value.workflow);
      }
    }
  }
}
