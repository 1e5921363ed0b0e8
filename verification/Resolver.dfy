/** Looking up a wallet user's own transactions, by what the customer says or by a scan of the account. */
module Resolver {
  import opened CaseTransition
  import opened Options
  import opened Ranking

  /** `created` is the place of the creation time's text in the order of such texts. */
  datatype Txn = Txn(id: string, owner: string, amount: Option<int>, bankCode: string, bankReference: string,
                     serviceType: string, status: string, created: nat)

  /** What the customer gave; empty texts and an absent or zero amount are not given. */
  datatype Criteria = Criteria(transactionId: string, orderId: string, billCode: string, amount: Option<int>,
                               bankName: string, bankReference: string, timeText: string, dateText: string)

  const NO_CRITERIA := Criteria("", "", "", None, "", "", "", "")

  /** Text comparisons, the registry and the downstream records: which bank and reference texts contain
      which, whether a service type names a workflow, a workflow's service types (none for no filter),
      and which transactions have not cleanly completed. */
  datatype Env = Env(
    bankIn: (string, string) -> bool, referenceIn: (string, string) -> bool, workflowIn: (string, string) -> bool,
    services: string -> set<string>, lower: string -> string, needsAttention: Txn -> bool, unknown: string)

  // ---- Scores ----

  predicate Given(amount: Option<int>) {
    amount.Some? && amount.value != 0
  }

  function Distance(a: int, b: int): nat {
    if a < b then b - a else a - b
  }

  /** Equal amounts count three and amounts less than ten percent off count one. */
  function AmountScore(claimed: Option<int>, t: Txn): nat {
    if !Given(claimed) then 0
    else
      var recorded := t.amount.GetOrElse(0);
      if recorded == claimed.value then 3
      else if 10 * Distance(recorded, claimed.value) < claimed.value then 1
      else 0
  }

  function Score(env: Env, c: Criteria, hint: string, t: Txn): (n: nat)
    ensures n <= 10
  {
    AmountScore(c.amount, t)
    + (if c.bankName != "" && t.bankCode != "" && env.bankIn(c.bankName, t.bankCode) then 2 else 0)
    + (if c.bankReference != "" && t.bankReference != "" && env.referenceIn(c.bankReference, t.bankReference) then 4 else 0)
    + (if hint != "" && hint != env.unknown && env.workflowIn(hint, t.serviceType) then 1 else 0)
  }

  method ScoreTransaction(env: Env, c: Criteria, hint: string, t: Txn) returns (score: nat)
    ensures score == Score(env, c, hint, t)
  {
    score := 0;
    if Given(c.amount) {
      var recorded := t.amount.GetOrElse(0);
      if recorded == c.amount.value {
        score := score + 3;
      } else if 10 * Distance(recorded, c.amount.value) < c.amount.value {
        score := score + 1;
      }
    }
    if c.bankName != "" && t.bankCode != "" && env.bankIn(c.bankName, t.bankCode) {
      score := score + 2;
    }
    if c.bankReference != "" && t.bankReference != "" && env.referenceIn(c.bankReference, t.bankReference) {
      score := score + 4;
    }
    if hint != "" && hint != env.unknown && env.workflowIn(hint, t.serviceType) {
      score := score + 1;
    }
  }

  function ScoreBy(env: Env, c: Criteria, hint: string): Txn -> nat {
    t => Score(env, c, hint, t)
  }

  /** What a record must score to be found. */
  const THRESHOLD := 2

  // ---- The search ----

  function Owned(repo: seq<Txn>, user: string): seq<Txn> {
    if repo == [] then []
    else Owned(repo[..|repo| - 1], user) + if repo[|repo| - 1].owner == user then [repo[|repo| - 1]] else []
  }

  function ById(repo: seq<Txn>, id: string): (r: Option<Txn>)
    ensures r.Some? ==> r.value in repo && r.value.id == id
    ensures r.None? <==> forall t :: t in repo ==> t.id != id
  {
    if repo == [] then None else if repo[0].id == id then Some(repo[0]) else ById(repo[1..], id)
  }

  function OwnedById(repo: seq<Txn>, user: string, id: string): Option<Txn> {
    if id == "" then None
    else
      var t := ById(repo, id);
      if t.Some? && t.value.owner == user then t else None
  }

  /** The record an id given by the customer names, if it is the customer's own. */
  function DirectHit(repo: seq<Txn>, user: string, c: Criteria): Option<Txn> {
    var t := OwnedById(repo, user, c.transactionId);
    if t.Some? then t else OwnedById(repo, user, c.orderId)
  }

  function Search(env: Env, repo: seq<Txn>, user: string, c: Criteria, hint: string): seq<Txn> {
    var hit := DirectHit(repo, user, c);
    if hit.Some? then [hit.value] else Ranked(ScoreBy(env, c, hint), Owned(repo, user), THRESHOLD, 10)
  }

  /** The search as written: ids first, then every record of the account is scored. */
  method SearchUserTransactions(env: Env, repo: seq<Txn>, user: string, c: Criteria, hint: string)
    returns (found: seq<Txn>)
    ensures found == Search(env, repo, user, c, hint)
  {
    if c.transactionId != "" {
      var t := ById(repo, c.transactionId);
      if t.Some? && t.value.owner == user {
        return [t.value];
      }
    }
    if c.orderId != "" {
      var t := ById(repo, c.orderId);
      if t.Some? && t.value.owner == user {
        return [t.value];
      }
    }
    var all := Owned(repo, user);
    var candidates: seq<Scored<Txn>> := [];
    var i := 0;
    while i < |all|
      invariant 0 <= i <= |all|
      invariant candidates == Candidates(ScoreBy(env, c, hint), all[..i], THRESHOLD)
    {
      var score := ScoreTransaction(env, c, hint, all[i]);
      assert score == ScoreBy(env, c, hint)(all[i]);
      if score >= THRESHOLD {
        candidates := candidates + [Scored(score, all[i])];
      }
      assert all[..i + 1][..i] == all[..i];
      i := i + 1;
    }
    assert all[..i] == all;
    SortedIsRanked(ScoreBy(env, c, hint), all, THRESHOLD, 10);
    found := Items(Sorted(candidates));
  }

  // ---- What the search finds ----

  lemma {:induction false} OwnedIn(repo: seq<Txn>, user: string)
    ensures forall t :: t in Owned(repo, user) <==> t in repo && t.owner == user
  {
    if repo != [] {
      OwnedIn(repo[..|repo| - 1], user);
      assert repo == repo[..|repo| - 1] + [repo[|repo| - 1]];
    }
  }

  /** A search finds only the user's own records: either the one an id names, or each record as often
      as the account lists it exactly when it scores at least two. */
  lemma SearchFindsExactly(env: Env, repo: seq<Txn>, user: string, c: Criteria, hint: string, t: Txn)
    ensures
      var found := Search(env, repo, user, c, hint);
      var hit := DirectHit(repo, user, c);
      && (t in found ==> t in repo && t.owner == user)
      && (hit.Some? ==> found == [hit.value])
      && (hit.None? ==> multiset(found)[t] ==
                          if Score(env, c, hint, t) >= THRESHOLD then multiset(Owned(repo, user))[t] else 0)
  {
    OwnedIn(repo, user);
    if DirectHit(repo, user, c).None? {
      RankedCounts(ScoreBy(env, c, hint), Owned(repo, user), THRESHOLD, 10, t);
      RankedIn(ScoreBy(env, c, hint), Owned(repo, user), THRESHOLD, 10, t);
    }
  }

  /** Without a record named by an id, nothing is found exactly when no record scores enough. */
  lemma SearchFindsNothingExactlyWhen(env: Env, repo: seq<Txn>, user: string, c: Criteria, hint: string)
    ensures Search(env, repo, user, c, hint) == [] <==>
              && DirectHit(repo, user, c).None?
              && forall t :: t in repo && t.owner == user ==> Score(env, c, hint, t) < THRESHOLD
  {
    OwnedIn(repo, user);
    var found := Search(env, repo, user, c, hint);
    if DirectHit(repo, user, c).None? {
      forall t
        ensures t in found <==> t in Owned(repo, user) && Score(env, c, hint, t) >= THRESHOLD
      {
        RankedIn(ScoreBy(env, c, hint), Owned(repo, user), THRESHOLD, 10, t);
      }
      if found != [] {
        assert found[0] in found;
      }
    }
  }

  /** More is given, and what was given stays: ids are the same. */
  predicate FillsIn(c: Criteria, more: Criteria) {
    && more.transactionId == c.transactionId && more.orderId == c.orderId && more.billCode == c.billCode
    && (Given(c.amount) ==> more.amount == c.amount)
    && (c.bankName != "" ==> more.bankName == c.bankName)
    && (c.bankReference != "" ==> more.bankReference == c.bankReference)
    && (c.timeText != "" ==> more.timeText == c.timeText)
    && (c.dateText != "" ==> more.dateText == c.dateText)
  }

  /** A record is found exactly when its amount or its bank or its reference matches, or its amount is near
      and the workflow fits: the workflow alone is not enough. */
  lemma ScoresEnoughExactlyWhen(env: Env, c: Criteria, hint: string, t: Txn)
    ensures
      Score(env, c, hint, t) >= THRESHOLD <==>
        || (Given(c.amount) && t.amount.GetOrElse(0) == c.amount.value)
        || (c.bankName != "" && t.bankCode != "" && env.bankIn(c.bankName, t.bankCode))
        || (c.bankReference != "" && t.bankReference != "" && env.referenceIn(c.bankReference, t.bankReference))
        || (&& Given(c.amount) && 10 * Distance(t.amount.GetOrElse(0), c.amount.value) < c.amount.value
            && hint != "" && hint != env.unknown && env.workflowIn(hint, t.serviceType))
  {
  }

  /** Giving more never lowers a score. */
  lemma MoreScoresMore(env: Env, c: Criteria, more: Criteria, hint: string, t: Txn)
    requires FillsIn(c, more)
    ensures Score(env, more, hint, t) >= Score(env, c, hint, t)
  {
  }

  /** Filling in further criteria never drops a record, so it never narrows the result. */
  lemma FillingInNeverNarrows(env: Env, repo: seq<Txn>, user: string, c: Criteria, more: Criteria, hint: string)
    requires FillsIn(c, more)
    ensures multiset(Search(env, repo, user, c, hint)) <= multiset(Search(env, repo, user, more, hint))
    ensures |Search(env, repo, user, c, hint)| <= |Search(env, repo, user, more, hint)|
  {
    if DirectHit(repo, user, c).None? {
      forall t
        ensures ScoreBy(env, c, hint)(t) <= ScoreBy(env, more, hint)(t) <= 10
      {
        MoreScoresMore(env, c, more, hint, t);
      }
      RankedGrows(ScoreBy(env, c, hint), ScoreBy(env, more, hint), Owned(repo, user), THRESHOLD, 10);
    }
  }

  // ---- The wallet user ----

  /** The resolver's answer; evidence fields are filled only with a record. */
  datatype Resolution = Resolution(status: CaseStatus, record: Option<Txn>, amount: Option<int>, owner: string,
                                   claimed: Option<int>, candidates: nat, scanFoundIssue: bool)

  function Nothing(status: CaseStatus): Resolution {
    Resolution(status, None, None, "", None, 0, false)
  }

  function ResolvedFrom(t: Txn, user: string): Resolution {
    Resolution(Resolved, Some(t), t.amount, user, None, 1, false)
  }

  predicate HasSearchCriteria(c: Criteria) {
    || c.transactionId != "" || c.orderId != "" || c.billCode != "" || Given(c.amount)
    || c.bankName != "" || c.bankReference != "" || c.timeText != "" || c.dateText != ""
  }

  predicate GaveId(c: Criteria) {
    c.transactionId != "" || c.orderId != "" || c.billCode != ""
  }

  predicate IsProblematic(env: Env, services: set<string>, t: Txn) {
    (services == {} || env.lower(t.serviceType) in services) && env.needsAttention(t)
  }

  function NeedingAttention(env: Env, txns: seq<Txn>, services: set<string>): seq<Txn> {
    if txns == [] then []
    else
      var last := txns[|txns| - 1];
      NeedingAttention(env, txns[..|txns| - 1], services) + if IsProblematic(env, services, last) then [last] else []
  }

  function CreatedAt(): Txn -> nat {
    (t: Txn) => t.created
  }

  /** The records that need attention, the most recent first. */
  function Problematic(env: Env, txns: seq<Txn>, services: set<string>): seq<Txn> {
    Descending(CreatedAt(), NeedingAttention(env, txns, services))
  }

  method FindProblematic(env: Env, repo: seq<Txn>, user: string, hint: string) returns (found: seq<Txn>)
    ensures found == Problematic(env, Owned(repo, user), env.services(hint))
  {
    found := [];
    var all, services := Owned(repo, user), env.services(hint);
    var i := 0;
    while i < |all|
      invariant 0 <= i <= |all|
      invariant found == NeedingAttention(env, all[..i], services)
    {
      if (services == {} || env.lower(all[i].serviceType) in services) && env.needsAttention(all[i]) {
        found := found + [all[i]];
      }
      assert all[..i + 1][..i] == all[..i];
      i := i + 1;
    }
    assert all[..i] == all;
    found := Descending(CreatedAt(), found);
  }

  /** Nothing was searched for: the account is scanned. */
  function Scan(env: Env, repo: seq<Txn>, user: string, hint: string, scanOk: bool): Resolution {
    var problematic := Problematic(env, Owned(repo, user), env.services(env.lower(hint)));
    if !scanOk then Nothing(EvidenceError)
    else if |problematic| == 1 then ResolvedFrom(problematic[0], user).(scanFoundIssue := true)
    else if |problematic| > 1 then Nothing(MultipleCandidates).(candidates := |problematic|, scanFoundIssue := true)
    else if hint != "" && env.lower(hint) != env.unknown then Nothing(NoMatch)
    else Nothing(NeedMoreInfo)
  }

  /** The fallback for a claimed amount that no record has: the account's one record needing attention. */
  predicate FallsBack(c: Criteria, problematic: seq<Txn>, scanOk: bool) {
    && !GaveId(c) && Given(c.amount) && scanOk && |problematic| == 1
    && problematic[0].amount.Some? && problematic[0].amount != c.amount
  }

  function Resolve(env: Env, repo: seq<Txn>, user: string, c: Criteria, hint: string, scanOk: bool): Resolution {
    if user == "" then Nothing(InvalidSession)
    else if !HasSearchCriteria(c) then Scan(env, repo, user, hint, scanOk)
    else
      var matches := Search(env, repo, user, c, hint);
      var problematic := Problematic(env, Owned(repo, user), env.services(hint));
      if |matches| == 1 then ResolvedFrom(matches[0], user)
      else if |matches| > 1 then Nothing(MultipleCandidates).(candidates := |matches|)
      else if FallsBack(c, problematic, scanOk)
      then ResolvedFrom(problematic[0], user).(status := AmountMismatch, claimed := c.amount)
      else Nothing(NoMatch)
  }

  lemma {:induction false} NeedingAttentionCounts(env: Env, txns: seq<Txn>, services: set<string>, t: Txn)
    ensures multiset(NeedingAttention(env, txns, services))[t] ==
            if IsProblematic(env, services, t) then multiset(txns)[t] else 0
  {
    if txns != [] {
      NeedingAttentionCounts(env, txns[..|txns| - 1], services, t);
      assert txns == txns[..|txns| - 1] + [txns[|txns| - 1]];
    }
  }

  /** The scan lists the most recent first, and each record as often as the account does exactly when it is
      of the workflow's services and needs attention. */
  lemma ScanLists(env: Env, txns: seq<Txn>, services: set<string>, t: Txn)
    ensures
      var found := Problematic(env, txns, services);
      && Descends(CreatedAt(), found)
      && multiset(found)[t] == (if IsProblematic(env, services, t) then multiset(txns)[t] else 0)
      && (t in found <==> t in txns && IsProblematic(env, services, t))
  {
    var found := Problematic(env, txns, services);
    DescendingIs(CreatedAt(), NeedingAttention(env, txns, services));
    NeedingAttentionCounts(env, txns, services, t);
    assert t in found <==> multiset(found)[t] > 0;
    assert t in txns <==> multiset(txns)[t] > 0;
  }

  /** Evidence is that of one record of the user's own account, with the amount it records and the
      session's owner; a claim is reported beside it exactly for a mismatch, and then it differs from
      the recorded amount. */
  ghost predicate IsEvidence(env: Env, repo: seq<Txn>, user: string, c: Criteria, r: Resolution) {
    && (r.record.Some? <==> r.status == Resolved || r.status == AmountMismatch)
    && (r.record.Some? ==> r.record.value in repo && r.record.value.owner == user == r.owner
                           && r.amount == r.record.value.amount)
    && (r.record.None? ==> r.amount.None? && r.owner == "")
    && (r.claimed.Some? <==> r.status == AmountMismatch)
    && (r.status == AmountMismatch ==>
          r.claimed == c.amount && r.amount.Some? && r.amount != r.claimed && env.needsAttention(r.record.value))
    && (r.candidates > 1 <==> r.status == MultipleCandidates)
  }

  lemma SoleMatch(env: Env, repo: seq<Txn>, user: string, c: Criteria, hint: string)
    ensures
      var found := Search(env, repo, user, c, hint);
      |found| == 1 ==> found[0] in repo && found[0].owner == user
  {
    var found := Search(env, repo, user, c, hint);
    if |found| == 1 {
      SearchFindsExactly(env, repo, user, c, hint, found[0]);
    }
  }

  lemma SoleProblematic(env: Env, repo: seq<Txn>, user: string, services: set<string>)
    ensures
      var found := Problematic(env, Owned(repo, user), services);
      |found| == 1 ==> found[0] in repo && found[0].owner == user && env.needsAttention(found[0])
  {
    var found := Problematic(env, Owned(repo, user), services);
    if |found| == 1 {
      ScanLists(env, Owned(repo, user), services, found[0]);
      OwnedIn(repo, user);
    }
  }

  lemma ScanEvidence(env: Env, repo: seq<Txn>, user: string, c: Criteria, hint: string, scanOk: bool)
    ensures IsEvidence(env, repo, user, c, Scan(env, repo, user, hint, scanOk))
  {
    SoleProblematic(env, repo, user, env.services(env.lower(hint)));
  }

  lemma RecordEvidence(env: Env, repo: seq<Txn>, user: string, c: Criteria, t: Txn)
    requires t in repo && t.owner == user
    ensures IsEvidence(env, repo, user, c, ResolvedFrom(t, user))
    ensures c.amount.Some? && t.amount.Some? && t.amount != c.amount && env.needsAttention(t) ==>
              IsEvidence(env, repo, user, c, ResolvedFrom(t, user).(status := AmountMismatch, claimed := c.amount))
  {
  }

  /** That is what the resolver returns, whatever is claimed. */
  lemma EvidenceIsTheRecord(env: Env, repo: seq<Txn>, user: string, c: Criteria, hint: string, scanOk: bool)
    ensures IsEvidence(env, repo, user, c, Resolve(env, repo, user, c, hint, scanOk))
  {
    var matches := Search(env, repo, user, c, hint);
    var problematic := Problematic(env, Owned(repo, user), env.services(hint));
    ScanEvidence(env, repo, user, c, hint, scanOk);
    if |matches| == 1 {
      SoleMatch(env, repo, user, c, hint);
      RecordEvidence(env, repo, user, c, matches[0]);
    } else if |problematic| == 1 {
      SoleProblematic(env, repo, user, env.services(hint));
      RecordEvidence(env, repo, user, c, problematic[0]);
    }
  }

  lemma MismatchBranch(env: Env, repo: seq<Txn>, user: string, c: Criteria, hint: string, scanOk: bool)
    ensures
      Resolve(env, repo, user, c, hint, scanOk).status == AmountMismatch <==>
        && user != "" && HasSearchCriteria(c) && Search(env, repo, user, c, hint) == []
        && FallsBack(c, Problematic(env, Owned(repo, user), env.services(hint)), scanOk)
  {
  }

  /** A mismatch is reported exactly when an amount was given without an id, no record scores enough,
      and the account has one record needing attention, with another amount. */
  lemma MismatchExactlyWhen(env: Env, repo: seq<Txn>, user: string, c: Criteria, hint: string, scanOk: bool)
    ensures
      var problematic := Problematic(env, Owned(repo, user), env.services(hint));
      Resolve(env, repo, user, c, hint, scanOk).status == AmountMismatch <==>
        && user != "" && !GaveId(c) && Given(c.amount) && scanOk
        && (forall t :: t in repo && t.owner == user ==> Score(env, c, hint, t) < THRESHOLD)
        && |problematic| == 1 && problematic[0].amount.Some? && problematic[0].amount != c.amount
  {
    MismatchBranch(env, repo, user, c, hint, scanOk);
    SearchFindsNothingExactlyWhen(env, repo, user, c, hint);
  }

  /** The resolver asks for more exactly when nothing was given, the scan found nothing and the workflow
      is unknown. */
  lemma AsksForMoreExactlyWhen(env: Env, repo: seq<Txn>, user: string, c: Criteria, hint: string, scanOk: bool)
    ensures
      Resolve(env, repo, user, c, hint, scanOk).status == NeedMoreInfo <==>
        && user != "" && !HasSearchCriteria(c) && scanOk
        && Problematic(env, Owned(repo, user), env.services(env.lower(hint))) == []
        && (hint == "" || env.lower(hint) == env.unknown)
  {
  }

  /** No own record is named by an id or scores enough. */
  ghost predicate NothingMatches(env: Env, repo: seq<Txn>, user: string, c: Criteria, hint: string) {
    && DirectHit(repo, user, c).None?
    && forall t :: t in repo && t.owner == user ==> Score(env, c, hint, t) < THRESHOLD
  }

  lemma NoMatchBranch(env: Env, repo: seq<Txn>, user: string, c: Criteria, hint: string, scanOk: bool)
    ensures
      Resolve(env, repo, user, c, hint, scanOk).status == NoMatch <==>
        user != "" &&
        if HasSearchCriteria(c)
        then Search(env, repo, user, c, hint) == []
             && !FallsBack(c, Problematic(env, Owned(repo, user), env.services(hint)), scanOk)
        else scanOk && Problematic(env, Owned(repo, user), env.services(env.lower(hint))) == []
             && hint != "" && env.lower(hint) != env.unknown
  {
  }

  /** Nothing is found exactly when something was given that matches no own record and the fallback does not
      apply, or nothing was given and the scan under a known workflow is empty. */
  lemma NoMatchExactlyWhen(env: Env, repo: seq<Txn>, user: string, c: Criteria, hint: string, scanOk: bool)
    ensures
      Resolve(env, repo, user, c, hint, scanOk).status == NoMatch <==>
        user != "" &&
        if HasSearchCriteria(c)
        then NothingMatches(env, repo, user, c, hint)
             && !FallsBack(c, Problematic(env, Owned(repo, user), env.services(hint)), scanOk)
        else scanOk && Problematic(env, Owned(repo, user), env.services(env.lower(hint))) == []
             && hint != "" && env.lower(hint) != env.unknown
  {
    NoMatchBranch(env, repo, user, c, hint, scanOk);
    SearchFindsNothingExactlyWhen(env, repo, user, c, hint);
  }

  lemma SeveralExactlyWhen(env: Env, repo: seq<Txn>, user: string, c: Criteria, hint: string, scanOk: bool)
    requires HasSearchCriteria(c)
    ensures
      Resolve(env, repo, user, c, hint, scanOk).status == MultipleCandidates <==>
        user != "" && |Search(env, repo, user, c, hint)| > 1
  {
  }

  /** Once a search finds several records, no further answer but an id ever singles one out. */
  lemma AnswersNeverSingleOut(env: Env, repo: seq<Txn>, user: string, c: Criteria, more: Criteria, hint: string,
                              scanOk: bool)
    requires HasSearchCriteria(c) && FillsIn(c, more)
    requires Resolve(env, repo, user, c, hint, scanOk).status == MultipleCandidates
    ensures Resolve(env, repo, user, more, hint, scanOk).status == MultipleCandidates
  {
    SeveralExactlyWhen(env, repo, user, c, hint, scanOk);
    FillingInNeverNarrows(env, repo, user, c, more, hint);
    SeveralExactlyWhen(env, repo, user, more, hint, scanOk);
  }

  /** The time, which the reply asks for, plays no part in a search. */
  lemma TimePlaysNoPart(env: Env, repo: seq<Txn>, user: string, c: Criteria, hint: string, time: string, date: string)
    ensures Search(env, repo, user, c.(timeText := time, dateText := date), hint) == Search(env, repo, user, c, hint)
  {
    var c' := c.(timeText := time, dateText := date);
    RankedSame(ScoreBy(env, c', hint), ScoreBy(env, c, hint), Owned(repo, user), THRESHOLD, 10);
  }

  /** A customer who has named nothing but the time is told that nothing was found, whatever the account
      holds: the scan that found several records and asked for the time is not made again. */
  lemma TimeAnswerFindsNothing(env: Env, repo: seq<Txn>, user: string, hint: string, time: string, date: string,
                               scanOk: bool)
    requires user != "" && (time != "" || date != "")
    ensures Resolve(env, repo, user, NO_CRITERIA.(timeText := time, dateText := date), hint, scanOk) == Nothing(NoMatch)
  {
    SearchFindsNothingExactlyWhen(env, repo, user, NO_CRITERIA.(timeText := time, dateText := date), hint);
  }

  /** An id that names no own record finds nothing, however many records need attention. */
  lemma WrongIdFindsNothing(env: Env, repo: seq<Txn>, user: string, id: string, hint: string, scanOk: bool)
    requires user != "" && id != "" && OwnedById(repo, user, id) == None
    ensures Resolve(env, repo, user, NO_CRITERIA.(transactionId := id), hint, scanOk) == Nothing(NoMatch)
  {
    SearchFindsNothingExactlyWhen(env, repo, user, NO_CRITERIA.(transactionId := id), hint);
  }
}
