/** Which answer the wallet user's resolver gives, and about which record, told from the records alone. */
module ResolverAnswers {
  import opened CaseTransition
  import opened Options
  import opened Ranking
  import opened Resolver

  /** The records with a property, in order. */
  function Matching(repo: seq<Txn>, p: Txn -> bool): seq<Txn> {
    if repo == [] then []
    else Matching(repo[..|repo| - 1], p) + if p(repo[|repo| - 1]) then [repo[|repo| - 1]] else []
  }

  function OwnEnough(env: Env, user: string, c: Criteria, hint: string): Txn -> bool {
    (t: Txn) => t.owner == user && Score(env, c, hint, t) >= THRESHOLD
  }

  function OwnPending(env: Env, user: string, services: set<string>): Txn -> bool {
    (t: Txn) => t.owner == user && (services == {} || env.lower(t.serviceType) in services) && env.needsAttention(t)
  }

  /** The customer named nothing. */
  predicate GaveNothing(c: Criteria) {
    c.(amount := None) == NO_CRITERIA && (c.amount == None || c.amount == Some(0))
  }

  /** The id names this record: the first with the id, and the user's own. */
  ghost predicate Names(repo: seq<Txn>, user: string, id: string, t: Txn) {
    && id != "" && t.id == id && t.owner == user
    && exists i :: 0 <= i < |repo| && repo[i] == t && forall j :: 0 <= j < i ==> repo[j].id != id
  }

  ghost predicate NamesNone(repo: seq<Txn>, user: string, id: string) {
    forall t :: t in repo ==> !Names(repo, user, id, t)
  }

  // ---- Counting ----

  lemma {:induction false} MatchingCounts(repo: seq<Txn>, p: Txn -> bool, t: Txn)
    ensures multiset(Matching(repo, p))[t] == if p(t) then multiset(repo)[t] else 0
  {
    if repo != [] {
      MatchingCounts(repo[..|repo| - 1], p, t);
      assert repo == repo[..|repo| - 1] + [repo[|repo| - 1]];
    }
  }

  lemma {:induction false} OwnedCounts(repo: seq<Txn>, user: string, t: Txn)
    ensures multiset(Owned(repo, user))[t] == if t.owner == user then multiset(repo)[t] else 0
  {
    if repo != [] {
      OwnedCounts(repo[..|repo| - 1], user, t);
      assert repo == repo[..|repo| - 1] + [repo[|repo| - 1]];
    }
  }

  /** What lists the same records as often has the same length and, when there is only one, is the same. */
  lemma SameRecords(found: seq<Txn>, matching: seq<Txn>)
    requires forall t :: multiset(found)[t] == multiset(matching)[t]
    ensures |found| == |matching| && (|found| == 1 ==> found == matching)
  {
    assert multiset(found) == multiset(matching);
    assert |multiset(found)| == |found| && |multiset(matching)| == |matching|;
    if |found| == 1 {
      assert found[0] in multiset(matching);
    }
  }

  lemma SearchMatches(env: Env, repo: seq<Txn>, user: string, c: Criteria, hint: string)
    requires DirectHit(repo, user, c).None?
    ensures
      var found, matching := Search(env, repo, user, c, hint), Matching(repo, OwnEnough(env, user, c, hint));
      |found| == |matching| && (|found| == 1 ==> found == matching)
  {
    var found, matching := Search(env, repo, user, c, hint), Matching(repo, OwnEnough(env, user, c, hint));
    forall t
      ensures multiset(found)[t] == multiset(matching)[t]
    {
      SearchFindsExactly(env, repo, user, c, hint, t);
      OwnedCounts(repo, user, t);
      MatchingCounts(repo, OwnEnough(env, user, c, hint), t);
    }
    SameRecords(found, matching);
  }

  lemma ScanMatches(env: Env, repo: seq<Txn>, user: string, services: set<string>)
    ensures
      var found, matching := Problematic(env, Owned(repo, user), services), Matching(repo, OwnPending(env, user, services));
      |found| == |matching| && (|found| == 1 ==> found == matching)
  {
    var found, matching := Problematic(env, Owned(repo, user), services), Matching(repo, OwnPending(env, user, services));
    forall t
      ensures multiset(found)[t] == multiset(matching)[t]
    {
      ScanLists(env, Owned(repo, user), services, t);
      OwnedCounts(repo, user, t);
      MatchingCounts(repo, OwnPending(env, user, services), t);
    }
    SameRecords(found, matching);
  }

  // ---- Ids ----

  lemma {:induction false} FirstById(repo: seq<Txn>, id: string)
    ensures ById(repo, id).Some? ==>
              exists i :: 0 <= i < |repo| && repo[i] == ById(repo, id).value && forall j :: 0 <= j < i ==> repo[j].id != id
  {
    if repo != [] {
      if repo[0].id == id {
        assert repo[0] == ById(repo, id).value;
      } else {
        FirstById(repo[1..], id);
        if ById(repo[1..], id).Some? {
          var i :| 0 <= i < |repo| - 1 && repo[1..][i] == ById(repo[1..], id).value
                   && forall j :: 0 <= j < i ==> repo[1..][j].id != id;
          assert repo[i + 1] == ById(repo, id).value;
          assert forall j :: 0 < j < i + 1 ==> repo[j] == repo[1..][j - 1];
        }
      }
    }
  }

  lemma OwnedByIdExactlyWhen(repo: seq<Txn>, user: string, id: string, t: Txn)
    ensures OwnedById(repo, user, id) == Some(t) <==> Names(repo, user, id, t)
  {
    FirstById(repo, id);
    if Names(repo, user, id, t) {
      var i :| 0 <= i < |repo| && repo[i] == t && forall j :: 0 <= j < i ==> repo[j].id != id;
      var k :| 0 <= k < |repo| && repo[k] == ById(repo, id).value && forall j :: 0 <= j < k ==> repo[j].id != id;
      assert i == k;
    }
  }

  /** An id is looked up first by itself: the record of a transaction id, or else that of an order id. */
  lemma DirectHitExactlyWhen(repo: seq<Txn>, user: string, c: Criteria, t: Txn)
    ensures DirectHit(repo, user, c) == Some(t) <==>
              || Names(repo, user, c.transactionId, t)
              || (NamesNone(repo, user, c.transactionId) && Names(repo, user, c.orderId, t))
    ensures DirectHit(repo, user, c).None? <==> NamesNone(repo, user, c.transactionId) && NamesNone(repo, user, c.orderId)
  {
    OwnedByIdExactlyWhen(repo, user, c.transactionId, t);
    OwnedByIdExactlyWhen(repo, user, c.orderId, t);
    NamesNoneExactlyWhen(repo, user, c.transactionId);
    NamesNoneExactlyWhen(repo, user, c.orderId);
  }

  lemma NamesNoneExactlyWhen(repo: seq<Txn>, user: string, id: string)
    ensures NamesNone(repo, user, id) <==> OwnedById(repo, user, id).None?
  {
    if OwnedById(repo, user, id).Some? {
      OwnedByIdExactlyWhen(repo, user, id, OwnedById(repo, user, id).value);
    } else {
      forall t | t in repo
        ensures !Names(repo, user, id, t)
      {
        OwnedByIdExactlyWhen(repo, user, id, t);
      }
    }
  }

  // ---- Order ----

  function If(b: bool, points: nat): nat {
    if b then points else 0
  }

  /** A reference weighs most, then the exact amount, the bank, and a near amount or the workflow. */
  function Points(env: Env, c: Criteria, hint: string, t: Txn): nat {
    var named := c.amount.GetOrElse(0);
    var recorded := t.amount.GetOrElse(0);
    var gap := if recorded < named then named - recorded else recorded - named;
    If(c.bankReference != "" && t.bankReference != "" && env.referenceIn(c.bankReference, t.bankReference), 4)
    + If(named != 0 && recorded == named, 3)
    + If(c.bankName != "" && t.bankCode != "" && env.bankIn(c.bankName, t.bankCode), 2)
    + If(named != 0 && recorded != named && 10 * gap < named, 1)
    + If(hint != "" && hint != env.unknown && env.workflowIn(hint, t.serviceType), 1)
  }

  lemma ScoreIsPoints(env: Env, c: Criteria, hint: string, t: Txn)
    ensures Score(env, c, hint, t) == Points(env, c, hint, t)
  {
  }

  /** The records found come by descending points. */
  lemma BestFirst(env: Env, repo: seq<Txn>, user: string, c: Criteria, hint: string, i: nat, j: nat)
    requires i < j < |Search(env, repo, user, c, hint)|
    ensures
      var found := Search(env, repo, user, c, hint);
      Points(env, c, hint, found[i]) >= Points(env, c, hint, found[j])
  {
    var found := Search(env, repo, user, c, hint);
    RankedDescends(ScoreBy(env, c, hint), Owned(repo, user), THRESHOLD, 10);
    ScoreIsPoints(env, c, hint, found[i]);
    ScoreIsPoints(env, c, hint, found[j]);
    assert ScoreBy(env, c, hint)(found[i]) >= ScoreBy(env, c, hint)(found[j]);
  }

  // ---- Answers ----

  lemma GaveNothingExactlyWhen(c: Criteria)
    ensures GaveNothing(c) <==> !HasSearchCriteria(c)
  {
  }

  /** The found record of a search: the one an id names, or the only own record that scores enough. */
  ghost predicate SearchSelects(env: Env, repo: seq<Txn>, user: string, c: Criteria, hint: string, t: Txn) {
    || Names(repo, user, c.transactionId, t)
    || (NamesNone(repo, user, c.transactionId) && Names(repo, user, c.orderId, t))
    || (&& NamesNone(repo, user, c.transactionId) && NamesNone(repo, user, c.orderId)
        && Matching(repo, OwnEnough(env, user, c, hint)) == [t])
  }

  lemma SearchSelectsExactlyWhen(env: Env, repo: seq<Txn>, user: string, c: Criteria, hint: string, t: Txn)
    ensures Search(env, repo, user, c, hint) == [t] <==> SearchSelects(env, repo, user, c, hint, t)
  {
    DirectHitExactlyWhen(repo, user, c, t);
    if DirectHit(repo, user, c).None? {
      SearchMatches(env, repo, user, c, hint);
    }
  }

  lemma ResolvedBranches(env: Env, repo: seq<Txn>, user: string, c: Criteria, hint: string, scanOk: bool, t: Txn)
    ensures
      var r := Resolve(env, repo, user, c, hint, scanOk);
      r.status == Resolved && r.record == Some(t) <==>
        user != "" &&
        if HasSearchCriteria(c) then Search(env, repo, user, c, hint) == [t]
        else scanOk && Problematic(env, Owned(repo, user), env.services(env.lower(hint))) == [t]
  {
    var r := Resolve(env, repo, user, c, hint, scanOk);
    var found := if HasSearchCriteria(c) then Search(env, repo, user, c, hint)
                 else Problematic(env, Owned(repo, user), env.services(env.lower(hint)));
    assert |found| == 1 ==> found == [found[0]];
  }

  /** The answer is resolved with a record exactly when the customer named something that selects it, or named
      nothing and it is the account's only record that is pending under the workflow. */
  lemma ResolvedExactlyWhen(env: Env, repo: seq<Txn>, user: string, c: Criteria, hint: string, scanOk: bool, t: Txn)
    ensures
      var r := Resolve(env, repo, user, c, hint, scanOk);
      r.status == Resolved && r.record == Some(t) <==>
        user != "" &&
        if GaveNothing(c) then scanOk && Matching(repo, OwnPending(env, user, env.services(env.lower(hint)))) == [t]
        else SearchSelects(env, repo, user, c, hint, t)
  {
    GaveNothingExactlyWhen(c);
    ResolvedBranches(env, repo, user, c, hint, scanOk, t);
    SearchSelectsExactlyWhen(env, repo, user, c, hint, t);
    ScanMatches(env, repo, user, env.services(env.lower(hint)));
  }

  lemma MismatchBranches(env: Env, repo: seq<Txn>, user: string, c: Criteria, hint: string, scanOk: bool, t: Txn)
    ensures
      var r := Resolve(env, repo, user, c, hint, scanOk);
      r.status == AmountMismatch && r.record == Some(t) <==>
        && r.status == AmountMismatch
        && Problematic(env, Owned(repo, user), env.services(hint)) == [t]
  {
    var found := Problematic(env, Owned(repo, user), env.services(hint));
    MismatchBranch(env, repo, user, c, hint, scanOk);
    assert |found| == 1 ==> found == [found[0]];
  }

  /** A mismatch is about the account's only pending record, when an amount was named without any id, no own
      record scores enough and that record has another amount. */
  lemma MismatchOfExactlyWhen(env: Env, repo: seq<Txn>, user: string, c: Criteria, hint: string, scanOk: bool, t: Txn)
    ensures
      var r := Resolve(env, repo, user, c, hint, scanOk);
      r.status == AmountMismatch && r.record == Some(t) <==>
        && user != "" && c.transactionId == "" && c.orderId == "" && c.billCode == ""
        && c.amount.Some? && c.amount.value != 0 && scanOk
        && Matching(repo, OwnEnough(env, user, c, hint)) == []
        && Matching(repo, OwnPending(env, user, env.services(hint))) == [t]
        && t.amount.Some? && t.amount != c.amount
  {
    MismatchBranches(env, repo, user, c, hint, scanOk, t);
    MismatchBranch(env, repo, user, c, hint, scanOk);
    ScanMatches(env, repo, user, env.services(hint));
    if c.transactionId == "" && c.orderId == "" {
      SearchMatches(env, repo, user, c, hint);
    }
  }

  lemma SeveralBranches(env: Env, repo: seq<Txn>, user: string, c: Criteria, hint: string, scanOk: bool)
    ensures
      var r := Resolve(env, repo, user, c, hint, scanOk);
      var found := if HasSearchCriteria(c) then Search(env, repo, user, c, hint)
                   else Problematic(env, Owned(repo, user), env.services(env.lower(hint)));
      && (r.status == MultipleCandidates <==> user != "" && (HasSearchCriteria(c) || scanOk) && |found| > 1)
      && (r.status == MultipleCandidates ==> r.candidates == |found|)
      && (r.scanFoundIssue <==> user != "" && !HasSearchCriteria(c) && scanOk && found != [])
      && (r.status == EvidenceError <==> user != "" && !HasSearchCriteria(c) && !scanOk)
      && (r.status == InvalidSession <==> user == "")
  {
  }

  /** The customer is asked to choose exactly among several own records, and their number is reported; the scan
      reports an issue exactly when it found a pending record. */
  lemma SeveralAre(env: Env, repo: seq<Txn>, user: string, c: Criteria, hint: string, scanOk: bool)
    ensures
      var r := Resolve(env, repo, user, c, hint, scanOk);
      var enough := Matching(repo, OwnEnough(env, user, c, hint));
      var pending := Matching(repo, OwnPending(env, user, env.services(env.lower(hint))));
      var choice := if GaveNothing(c) then pending else enough;
      && (r.status == MultipleCandidates <==>
          && user != "" && |choice| > 1
          && (GaveNothing(c) ==> scanOk)
          && NamesNone(repo, user, c.transactionId) && NamesNone(repo, user, c.orderId))
      && (r.status == MultipleCandidates ==> r.candidates == |choice|)
      && (r.scanFoundIssue <==> user != "" && GaveNothing(c) && scanOk && pending != [])
      && (r.status == EvidenceError <==> user != "" && GaveNothing(c) && !scanOk)
      && (r.status == InvalidSession <==> user == "")
  {
    GaveNothingExactlyWhen(c);
    SeveralBranches(env, repo, user, c, hint, scanOk);
    ScanMatches(env, repo, user, env.services(env.lower(hint)));
    NamesNoneExactlyWhen(repo, user, c.transactionId);
    NamesNoneExactlyWhen(repo, user, c.orderId);
    if DirectHit(repo, user, c).None? {
      SearchMatches(env, repo, user, c, hint);
    }
  }
}
