/** Keeping the items that score enough and sorting them by descending score, stably. */
module Ranking {
  datatype Scored<T> = Scored(score: nat, item: T)

  function Insert<T>(x: Scored<T>, s: seq<Scored<T>>): seq<Scored<T>> {
    if s == [] then [x] else if s[0].score < x.score then [x] + s else [s[0]] + Insert(x, s[1..])
  }

  /** Python's `sort` with `reverse=True`: equal scores keep their order. */
  function Sorted<T>(s: seq<Scored<T>>): seq<Scored<T>> {
    if s == [] then [] else Insert(s[|s| - 1], Sorted(s[..|s| - 1]))
  }

  function Items<T>(s: seq<Scored<T>>): seq<T> {
    if s == [] then [] else Items(s[..|s| - 1]) + [s[|s| - 1].item]
  }

  /** The items that score at least `low`, with their scores. */
  function Candidates<T>(score: T -> nat, items: seq<T>, low: nat): seq<Scored<T>> {
    if items == [] then []
    else
      var last := items[|items| - 1];
      var before := Candidates(score, items[..|items| - 1], low);
      if score(last) >= low then before + [Scored(score(last), last)] else before
  }

  /** The items with a given score, in order. */
  function Scoring<T>(score: T -> nat, items: seq<T>, k: nat): seq<T> {
    if items == [] then []
    else
      var last := items[|items| - 1];
      var before := Scoring(score, items[..|items| - 1], k);
      if score(last) == k then before + [last] else before
  }

  /** The items scoring from `low` to k: those with score k, then those with k - 1, and so on. */
  function Ranked<T>(score: T -> nat, items: seq<T>, low: nat, k: nat): seq<T> {
    if k < low then [] else Scoring(score, items, k) + if k == 0 then [] else Ranked(score, items, low, k - 1)
  }

  // ---- Sorting is ranking ----

  function Bucket<T>(s: seq<Scored<T>>, k: nat): seq<Scored<T>> {
    if s == [] then []
    else
      var before := Bucket(s[..|s| - 1], k);
      if s[|s| - 1].score == k then before + [s[|s| - 1]] else before
  }

  function Buckets<T>(s: seq<Scored<T>>, k: nat): seq<Scored<T>>
    decreases k, 1
  {
    Bucket(s, k) + Lower(s, k)
  }

  /** The buckets below k. */
  function Lower<T>(s: seq<Scored<T>>, k: nat): seq<Scored<T>>
    decreases k, 0
  {
    if k == 0 then [] else Buckets(s, k - 1)
  }

  ghost predicate AtLeast<T>(s: seq<Scored<T>>, k: nat) {
    forall i :: 0 <= i < |s| ==> s[i].score >= k
  }

  ghost predicate AtMost<T>(s: seq<Scored<T>>, k: nat) {
    forall i :: 0 <= i < |s| ==> s[i].score <= k
  }

  lemma {:induction false} BucketScores<T>(s: seq<Scored<T>>, k: nat)
    ensures AtLeast(Bucket(s, k), k) && AtMost(Bucket(s, k), k)
  {
    if s != [] {
      BucketScores(s[..|s| - 1], k);
    }
  }

  lemma {:induction false} BucketsAtMost<T>(s: seq<Scored<T>>, k: nat)
    ensures AtMost(Buckets(s, k), k)
  {
    BucketScores(s, k);
    if k > 0 {
      BucketsAtMost(s, k - 1);
    }
  }

  lemma {:induction false} InsertAfter<T>(x: Scored<T>, a: seq<Scored<T>>, b: seq<Scored<T>>)
    requires AtLeast(a, x.score)
    ensures Insert(x, a + b) == a + Insert(x, b)
  {
    if a == [] {
      assert a + b == b;
    } else {
      InsertAfter(x, a[1..], b);
      assert (a + b)[1..] == a[1..] + b;
      assert a == [a[0]] + a[1..];
    }
  }

  lemma InsertFirst<T>(x: Scored<T>, s: seq<Scored<T>>)
    requires s != [] ==> s[0].score < x.score
    ensures Insert(x, s) == [x] + s
  {
  }

  lemma BucketSnoc<T>(s: seq<Scored<T>>, x: Scored<T>, k: nat)
    ensures Bucket(s + [x], k) == if x.score == k then Bucket(s, k) + [x] else Bucket(s, k)
  {
    assert (s + [x])[..|s|] == s;
  }

  lemma {:induction false} BucketsWithout<T>(s: seq<Scored<T>>, x: Scored<T>, t: seq<Scored<T>>, k: nat)
    requires t == s + [x] && x.score > k
    ensures Buckets(t, k) == Buckets(s, k)
  {
    assert Bucket(t, k) == Bucket(s, k) by {
      BucketSnoc(s, x, k);
    }
    if k > 0 {
      BucketsWithout(s, x, t, k - 1);
    }
  }

  lemma LowerWithout<T>(s: seq<Scored<T>>, x: Scored<T>, t: seq<Scored<T>>, k: nat)
    requires t == s + [x] && x.score == k
    ensures Lower(t, k) == Lower(s, k) && Insert(x, Lower(s, k)) == [x] + Lower(s, k)
  {
    if k > 0 {
      BucketsAtMost(s, k - 1);
      BucketsWithout(s, x, t, k - 1);
    }
    InsertFirst(x, Lower(s, k));
  }

  lemma Reassociate<T>(a: seq<T>, x: T, b: seq<T>)
    ensures a + ([x] + b) == (a + [x]) + b
  {
  }

  lemma {:induction false} InsertIntoBuckets<T>(s: seq<Scored<T>>, x: Scored<T>, t: seq<Scored<T>>, k: nat)
    requires t == s + [x] && x.score <= k
    ensures Insert(x, Buckets(s, k)) == Buckets(t, k)
  {
    assert Insert(x, Bucket(s, k) + Lower(s, k)) == Bucket(s, k) + Insert(x, Lower(s, k)) by {
      BucketScores(s, k);
      InsertAfter(x, Bucket(s, k), Lower(s, k));
    }
    BucketSnoc(s, x, k);
    if x.score == k {
      LowerWithout(s, x, t, k);
      Reassociate(Bucket(s, k), x, Lower(s, k));
    } else {
      InsertIntoBuckets(s, x, t, k - 1);
    }
  }

  lemma {:induction false} NoBuckets<T>(k: nat)
    ensures Buckets<T>([], k) == []
  {
    if k > 0 {
      NoBuckets<T>(k - 1);
    }
  }

  lemma {:induction false} SortedIsBuckets<T>(s: seq<Scored<T>>, k: nat)
    requires AtMost(s, k)
    ensures Sorted(s) == Buckets(s, k)
  {
    if s == [] {
      NoBuckets<T>(k);
    } else {
      var before := s[..|s| - 1];
      SortedIsBuckets(before, k);
      assert s == before + [s[|s| - 1]];
      InsertIntoBuckets(before, s[|s| - 1], s, k);
    }
  }

  lemma ItemsSnoc<T>(s: seq<Scored<T>>, x: Scored<T>)
    ensures Items(s + [x]) == Items(s) + [x.item]
  {
    assert (s + [x])[..|s|] == s;
  }

  lemma {:induction false} ItemsConcat<T>(a: seq<Scored<T>>, b: seq<Scored<T>>)
    ensures Items(a + b) == Items(a) + Items(b)
  {
    if b == [] {
      assert a + b == a;
    } else {
      var before, last := b[..|b| - 1], b[|b| - 1];
      ItemsConcat(a, before);
      ItemsSnoc(a + before, last);
      ItemsSnoc(before, last);
      assert b == before + [last];
      assert a + b == (a + before) + [last];
      assert (Items(a) + Items(before)) + [last.item] == Items(a) + (Items(before) + [last.item]);
    }
  }

  lemma {:induction false} CandidateBucket<T>(score: T -> nat, items: seq<T>, low: nat, k: nat)
    ensures Items(Bucket(Candidates(score, items, low), k)) == if k < low then [] else Scoring(score, items, k)
  {
    if items != [] {
      var before, last := items[..|items| - 1], items[|items| - 1];
      CandidateBucket(score, before, low, k);
      if score(last) >= low {
        BucketSnoc(Candidates(score, before, low), Scored(score(last), last), k);
        ItemsSnoc(Bucket(Candidates(score, before, low), k), Scored(score(last), last));
      }
    }
  }

  lemma {:induction false} CandidateBuckets<T>(score: T -> nat, items: seq<T>, low: nat, k: nat)
    ensures Items(Buckets(Candidates(score, items, low), k)) == Ranked(score, items, low, k)
  {
    var s := Candidates(score, items, low);
    CandidateBucket(score, items, low, k);
    ItemsConcat(Bucket(s, k), Lower(s, k));
    if k > 0 {
      CandidateBuckets(score, items, low, k - 1);
      if k < low {
        NoneRanked(score, items, low, k - 1);
      }
    }
  }

  lemma NoneRanked<T>(score: T -> nat, items: seq<T>, low: nat, k: nat)
    requires k < low
    ensures Ranked(score, items, low, k) == []
  {
  }

  lemma {:induction false} CandidatesAtMost<T>(score: T -> nat, items: seq<T>, low: nat, k: nat)
    requires forall x :: x in items ==> score(x) <= k
    ensures AtMost(Candidates(score, items, low), k)
  {
    if items != [] {
      var before := items[..|items| - 1];
      assert forall x :: x in before ==> x in items;
      CandidatesAtMost(score, before, low, k);
    }
  }

  /** Sorting the candidates by descending score, stably, is ranking the items. */
  lemma SortedIsRanked<T>(score: T -> nat, items: seq<T>, low: nat, k: nat)
    requires forall x :: x in items ==> score(x) <= k
    ensures Items(Sorted(Candidates(score, items, low))) == Ranked(score, items, low, k)
  {
    CandidatesAtMost(score, items, low, k);
    SortedIsBuckets(Candidates(score, items, low), k);
    CandidateBuckets(score, items, low, k);
  }

  // ---- What ranking keeps ----

  lemma {:induction false} ScoringCounts<T>(score: T -> nat, items: seq<T>, k: nat, x: T)
    ensures multiset(Scoring(score, items, k))[x] == if score(x) == k then multiset(items)[x] else 0
  {
    if items != [] {
      ScoringCounts(score, items[..|items| - 1], k, x);
      assert items == items[..|items| - 1] + [items[|items| - 1]];
    }
  }

  /** Ranking keeps each item as often as it is listed exactly when it scores enough. */
  lemma {:induction false} RankedCounts<T>(score: T -> nat, items: seq<T>, low: nat, k: nat, x: T)
    ensures multiset(Ranked(score, items, low, k))[x] == if low <= score(x) <= k then multiset(items)[x] else 0
  {
    if k >= low {
      var rest := if k == 0 then [] else Ranked(score, items, low, k - 1);
      ScoringCounts(score, items, k, x);
      if k > 0 {
        RankedCounts(score, items, low, k - 1, x);
      }
      assert multiset(Scoring(score, items, k) + rest)[x] == multiset(Scoring(score, items, k))[x] + multiset(rest)[x];
    }
  }

  lemma RankedIn<T>(score: T -> nat, items: seq<T>, low: nat, k: nat, x: T)
    ensures x in Ranked(score, items, low, k) <==> x in items && low <= score(x) <= k
  {
    RankedCounts(score, items, low, k, x);
    assert x in items <==> multiset(items)[x] > 0;
    assert x in Ranked(score, items, low, k) <==> multiset(Ranked(score, items, low, k))[x] > 0;
  }

  ghost predicate AllScore<T>(score: T -> nat, s: seq<T>, lo: nat, hi: nat) {
    forall i :: 0 <= i < |s| ==> lo <= score(s[i]) <= hi
  }

  ghost predicate Descends<T>(score: T -> nat, s: seq<T>) {
    forall i, j :: 0 <= i < j < |s| ==> score(s[i]) >= score(s[j])
  }

  lemma {:induction false} ScoringScores<T>(score: T -> nat, items: seq<T>, k: nat)
    ensures AllScore(score, Scoring(score, items, k), k, k)
  {
    if items != [] {
      ScoringScores(score, items[..|items| - 1], k);
    }
  }

  lemma DescendsConcat<T>(score: T -> nat, a: seq<T>, b: seq<T>, k: nat)
    requires AllScore(score, a, k, k) && AllScore(score, b, 0, k) && Descends(score, b)
    ensures Descends(score, a + b) && AllScore(score, a + b, 0, k)
  {
  }

  /** The best come first. */
  lemma {:induction false} RankedDescends<T>(score: T -> nat, items: seq<T>, low: nat, k: nat)
    ensures Descends(score, Ranked(score, items, low, k)) && AllScore(score, Ranked(score, items, low, k), 0, k)
  {
    if k >= low {
      ScoringScores(score, items, k);
      if k > 0 {
        RankedDescends(score, items, low, k - 1);
      }
      DescendsConcat(score, Scoring(score, items, k), if k == 0 then [] else Ranked(score, items, low, k - 1), k);
    }
  }

  lemma {:induction false} RankedSame<T>(score: T -> nat, score': T -> nat, items: seq<T>, low: nat, k: nat)
    requires forall x :: x in items ==> score(x) == score'(x)
    ensures Ranked(score, items, low, k) == Ranked(score', items, low, k)
  {
    if k >= low {
      ScoringSame(score, score', items, k);
      if k > 0 {
        RankedSame(score, score', items, low, k - 1);
      }
    }
  }

  lemma {:induction false} ScoringSame<T>(score: T -> nat, score': T -> nat, items: seq<T>, k: nat)
    requires forall x :: x in items ==> score(x) == score'(x)
    ensures Scoring(score, items, k) == Scoring(score', items, k)
  {
    if items != [] {
      var before := items[..|items| - 1];
      assert forall x :: x in before ==> x in items;
      ScoringSame(score, score', before, k);
    }
  }

  /** Raising scores never drops an item. */
  lemma RankedGrows<T(!new)>(score: T -> nat, higher: T -> nat, items: seq<T>, low: nat, k: nat)
    requires forall x :: score(x) <= higher(x) <= k
    ensures multiset(Ranked(score, items, low, k)) <= multiset(Ranked(higher, items, low, k))
    ensures |Ranked(score, items, low, k)| <= |Ranked(higher, items, low, k)|
  {
    var a, b := multiset(Ranked(score, items, low, k)), multiset(Ranked(higher, items, low, k));
    forall x
      ensures a[x] <= b[x]
    {
      RankedCounts(score, items, low, k, x);
      RankedCounts(higher, items, low, k, x);
    }
    assert b == a + (b - a);
    assert |a| == |Ranked(score, items, low, k)| && |b| == |Ranked(higher, items, low, k)|;
  }

  // ---- Sorting everything ----

  function Greatest<T>(key: T -> nat, items: seq<T>): (k: nat)
    ensures forall x :: x in items ==> key(x) <= k
  {
    if items == [] then 0
    else
      var k, last := Greatest(key, items[..|items| - 1]), key(items[|items| - 1]);
      assert items == items[..|items| - 1] + [items[|items| - 1]];
      if last > k then last else k
  }

  /** The items by descending key, stably. */
  function Descending<T>(key: T -> nat, items: seq<T>): seq<T> {
    Items(Sorted(Candidates(key, items, 0)))
  }

  /** Sorting keeps every item, puts the greatest keys first and keeps the order within a key. */
  lemma DescendingIs<T(!new)>(key: T -> nat, items: seq<T>)
    ensures
      var r := Descending(key, items);
      && r == Ranked(key, items, 0, Greatest(key, items))
      && multiset(r) == multiset(items) && |r| == |items|
      && Descends(key, r)
  {
    var k, r := Greatest(key, items), Descending(key, items);
    SortedIsRanked(key, items, 0, k);
    RankedDescends(key, items, 0, k);
    forall x
      ensures multiset(r)[x] == multiset(items)[x]
    {
      RankedCounts(key, items, 0, k, x);
      assert x !in items ==> multiset(items)[x] == 0;
    }
    assert |multiset(r)| == |r| && |multiset(items)| == |items|;
  }
}
