/** The fields a customer has given so far: merging them into the case, completing an extraction from
    them, and striking out the questions they answer. */
module FieldMerge {
  import opened CustomerClaims
  import opened VndAmount

  /** Extracted attributes or stored values, by key. */
  type Info = map<string, Claimed>

  /** The stored keys, and which open questions each key answers if not only its own. */
  datatype Schema = Schema(keys: seq<string>, satisfies: map<string, seq<string>>)

  const CHAT_SCHEMA := Schema(
    ["transaction_id", "order_id", "bill_code", "customer_code", "amount", "bank_name", "bank_reference",
     "approximate_time_text", "approximate_date_text", "provider_name"],
    map["amount" := ["amount"], "bank_name" := ["bank_name"], "bank_reference" := ["bank_reference", "bank_name"],
        "approximate_time_text" := ["transaction_time"], "approximate_date_text" := ["transaction_time"],
        "transaction_id" := ["transaction_id"], "order_id" := ["order_id", "transaction_id"],
        "bill_code" := ["bill_code"]])

  /** The value under a key, or `Absent` for none and for an empty one. */
  function Known(info: Info, key: string): Claimed {
    if key in info && Truthy(info[key]) then info[key] else Absent
  }

  // ---- Merging ----

  function Merged(keys: seq<string>, info: Info, extracted: Info): Info {
    if keys == [] then info
    else
      var last := keys[|keys| - 1];
      var before := Merged(keys[..|keys| - 1], info, extracted);
      if Known(extracted, last) != Absent then before[last := extracted[last]] else before
  }

  function Completed(keys: seq<string>, extracted: Info, info: Info): Info {
    if keys == [] then extracted
    else
      var last := keys[|keys| - 1];
      var before := Completed(keys[..|keys| - 1], extracted, info);
      if Known(before, last) == Absent && Known(info, last) != Absent then before[last := info[last]] else before
  }

  /** Stores every non-empty extracted field. */
  method MergeExtracted(schema: Schema, stored: Info, extracted: Info) returns (info: Info)
    ensures info == Merged(schema.keys, stored, extracted)
  {
    info := stored;
    var i := 0;
    while i < |schema.keys|
      invariant 0 <= i <= |schema.keys|
      invariant info == Merged(schema.keys[..i], stored, extracted)
    {
      var key := schema.keys[i];
      if key in extracted && Truthy(extracted[key]) {
        info := info[key := extracted[key]];
      }
      assert schema.keys[..i + 1][..i] == schema.keys[..i];
      i := i + 1;
    }
    assert schema.keys[..i] == schema.keys;
  }

  /** Fills the empty extracted fields from the stored ones. */
  method CompleteFrom(schema: Schema, given: Info, stored: Info) returns (extracted: Info)
    ensures extracted == Completed(schema.keys, given, stored)
  {
    extracted := given;
    var i := 0;
    while i < |schema.keys|
      invariant 0 <= i <= |schema.keys|
      invariant extracted == Completed(schema.keys[..i], given, stored)
    {
      var key := schema.keys[i];
      if !(key in extracted && Truthy(extracted[key])) {
        if key in stored && Truthy(stored[key]) {
          extracted := extracted[key := stored[key]];
        }
      }
      assert schema.keys[..i + 1][..i] == schema.keys[..i];
      i := i + 1;
    }
    assert schema.keys[..i] == schema.keys;
  }

  /** Merging overwrites exactly the schema's keys that the extraction knows. */
  lemma {:induction false} MergedAt(keys: seq<string>, info: Info, extracted: Info, key: string)
    ensures
      var m := Merged(keys, info, extracted);
      && (key in m <==> key in info || (key in keys && Known(extracted, key) != Absent))
      && (key in m ==> m[key] == if key in keys && Known(extracted, key) != Absent then extracted[key] else info[key])
  {
    if keys != [] {
      MergedAt(keys[..|keys| - 1], info, extracted, key);
      assert key in keys <==> key in keys[..|keys| - 1] || key == keys[|keys| - 1];
    }
  }

  /** Completing fills exactly the schema's keys that the extraction does not know. */
  lemma {:induction false} CompletedAt(keys: seq<string>, extracted: Info, info: Info, key: string)
    ensures
      var c := Completed(keys, extracted, info);
      && (key in c <==> key in extracted || (key in keys && Known(info, key) != Absent))
      && (key in c ==>
            var fills := key in keys && Known(extracted, key) == Absent && Known(info, key) != Absent;
            c[key] == if fills then info[key] else extracted[key])
  {
    if keys != [] {
      CompletedAt(keys[..|keys| - 1], extracted, info, key);
      assert key in keys <==> key in keys[..|keys| - 1] || key == keys[|keys| - 1];
    }
  }

  /** After merging and completing, the case and the extraction agree on every key of the schema, and
      the extraction's other attributes are untouched. */
  lemma MergeThenCompleteAgree(keys: seq<string>, info: Info, extracted: Info, key: string)
    ensures
      var m := Merged(keys, info, extracted);
      var c := Completed(keys, extracted, m);
      && (key in keys ==> Known(c, key) == Known(m, key))
      && (key !in keys ==> Known(c, key) == Known(extracted, key) && Known(m, key) == Known(info, key))
  {
    MergedAt(keys, info, extracted, key);
    CompletedAt(keys, extracted, Merged(keys, info, extracted), key);
  }

  /** Merging the extractions of several messages. */
  function MergedAll(keys: seq<string>, info: Info, messages: seq<Info>): Info {
    if messages == [] then info
    else Merged(keys, MergedAll(keys, info, messages[..|messages| - 1]), messages[|messages| - 1])
  }

  /** The last non-empty value given for a key. */
  function LastGiven(messages: seq<Info>, key: string): Claimed {
    if messages == [] then Absent
    else if Known(messages[|messages| - 1], key) != Absent then Known(messages[|messages| - 1], key)
    else LastGiven(messages[..|messages| - 1], key)
  }

  /** A case that started with nothing stores the last non-empty value of each key, and nothing else. */
  lemma {:induction false} StoresLastGiven(keys: seq<string>, messages: seq<Info>, key: string)
    ensures Known(MergedAll(keys, map[], messages), key) == if key in keys then LastGiven(messages, key) else Absent
  {
    if messages != [] {
      var before := messages[..|messages| - 1];
      StoresLastGiven(keys, before, key);
      MergedAt(keys, MergedAll(keys, map[], before), messages[|messages| - 1], key);
    }
  }

  // ---- Open questions ----

  /** The questions that a key answers. */
  function Answers(schema: Schema, key: string): seq<string> {
    if key in schema.satisfies then schema.satisfies[key] else [key]
  }

  ghost predicate Satisfied(schema: Schema, info: Info, question: string) {
    exists key :: key in info && Truthy(info[key]) && question in Answers(schema, key)
  }

  function Without(questions: seq<string>, answered: set<string>): seq<string> {
    if questions == [] then []
    else
      var before := Without(questions[..|questions| - 1], answered);
      var last := questions[|questions| - 1];
      if last in answered then before else before + [last]
  }

  ghost function Answered(schema: Schema, questions: seq<string>, info: Info): set<string> {
    set q | q in questions && Satisfied(schema, info, q)
  }

  /** The questions that the known fields leave open, in order. */
  ghost function Open(schema: Schema, questions: seq<string>, info: Info): seq<string> {
    Without(questions, Answered(schema, questions, info))
  }

  method AnsweredBy(schema: Schema, info: Info) returns (answered: set<string>)
    ensures forall q :: q in answered <==> Satisfied(schema, info, q)
  {
    answered := {};
    var rest := info.Keys;
    while rest != {}
      invariant rest <= info.Keys
      invariant forall q :: q in answered <==>
        exists key :: key in info.Keys - rest && Truthy(info[key]) && q in Answers(schema, key)
      decreases |rest|
    {
      var key :| key in rest;
      ghost var before, beforeRest := answered, rest;
      var answers := Answers(schema, key);
      if Truthy(info[key]) {
        answered := answered + set q | q in answers;
      }
      rest := rest - {key};
      forall q
        ensures q in answered <==>
                exists key :: key in info.Keys - rest && Truthy(info[key]) && q in Answers(schema, key)
      {
        if q in before {
          var k :| k in info.Keys - beforeRest && Truthy(info[k]) && q in Answers(schema, k);
          assert k in info.Keys - rest;
        } else if q in answered {
          assert key in info.Keys - rest && Truthy(info[key]) && q in Answers(schema, key);
        }
      }
    }
  }

  method Filter(questions: seq<string>, answered: set<string>) returns (open: seq<string>)
    ensures open == Without(questions, answered)
  {
    open := [];
    var i := 0;
    while i < |questions|
      invariant 0 <= i <= |questions|
      invariant open == Without(questions[..i], answered)
    {
      if questions[i] !in answered {
        open := open + [questions[i]];
      }
      assert questions[..i + 1][..i] == questions[..i];
      i := i + 1;
    }
    assert questions[..i] == questions;
  }

  lemma {:induction false} WithoutSame(questions: seq<string>, a: set<string>, b: set<string>)
    requires forall q :: q in questions ==> (q in a <==> q in b)
    ensures Without(questions, a) == Without(questions, b)
  {
    if questions != [] {
      WithoutSame(questions[..|questions| - 1], a, b);
    }
  }

  lemma {:induction false} NothingAnswered(questions: seq<string>, answered: set<string>)
    requires forall q :: q in questions ==> q !in answered
    ensures Without(questions, answered) == questions
  {
    if questions != [] {
      NothingAnswered(questions[..|questions| - 1], answered);
      assert questions == questions[..|questions| - 1] + [questions[|questions| - 1]];
    }
  }

  /** The case's own open questions after a message. */
  method Recalculate(schema: Schema, missing: seq<string>, info: Info) returns (open: seq<string>)
    ensures open == Open(schema, missing, info)
  {
    if missing == [] {
      return missing;
    }
    var answered := AnsweredBy(schema, info);
    open := Filter(missing, answered);
    WithoutSame(missing, answered, Answered(schema, missing, info));
  }

  /** The resolver's questions that the customer has not answered yet: the same list. */
  method SubtractProvided(schema: Schema, missing: seq<string>, info: Info) returns (open: seq<string>)
    ensures open == Open(schema, missing, info)
  {
    if missing == [] || info == map[] {
      NothingAnswered(missing, Answered(schema, missing, info));
      return missing;
    }
    var answered := AnsweredBy(schema, info);
    open := Filter(missing, answered);
    WithoutSame(missing, answered, Answered(schema, missing, info));
  }

  /** The remaining list keeps the order: it is the given one with some places left out. */
  ghost predicate IsSubsequence(s: seq<string>, t: seq<string>) {
    || s == []
    || (&& t != []
        && (|| IsSubsequence(s, t[..|t| - 1])
            || (s[|s| - 1] == t[|t| - 1] && IsSubsequence(s[..|s| - 1], t[..|t| - 1]))))
  }

  lemma {:induction false} WithoutIsSubsequence(questions: seq<string>, answered: set<string>)
    ensures IsSubsequence(Without(questions, answered), questions)
  {
    if questions != [] {
      var before := Without(questions[..|questions| - 1], answered);
      WithoutIsSubsequence(questions[..|questions| - 1], answered);
      assert (before + [questions[|questions| - 1]])[..|before|] == before;
    }
  }

  lemma {:induction false} WithoutCounts(questions: seq<string>, answered: set<string>, q: string)
    ensures multiset(Without(questions, answered))[q] == if q in answered then 0 else multiset(questions)[q]
  {
    if questions != [] {
      WithoutCounts(questions[..|questions| - 1], answered, q);
      assert questions == questions[..|questions| - 1] + [questions[|questions| - 1]];
    }
  }

  /** A question is answered exactly by a field that holds something, when that is the field itself or the schema says
      that it answers the question. */
  lemma AnsweredExactlyWhen(schema: Schema, info: Info, q: string)
    ensures
      Satisfied(schema, info, q) <==>
        exists key :: && key in info && info[key] !in {Absent, Number(0), Words("")}
                      && if key in schema.satisfies then q in schema.satisfies[key] else q == key
  {
    if key :| key in info && Truthy(info[key]) && q in Answers(schema, key) {
      assert key in info && if key in schema.satisfies then q in schema.satisfies[key] else q == key;
    }
    if key :| && key in info && info[key] !in {Absent, Number(0), Words("")}
              && if key in schema.satisfies then q in schema.satisfies[key] else q == key {
      assert Truthy(info[key]) && q in Answers(schema, key);
    }
  }

  /** A question stays, as often and in the order it was listed, exactly when no known field answers it. */
  lemma OpenExactlyWhen(schema: Schema, questions: seq<string>, info: Info, q: string)
    ensures
      var open := Open(schema, questions, info);
      && IsSubsequence(open, questions)
      && multiset(open)[q] == if Satisfied(schema, info, q) then 0 else multiset(questions)[q]
  {
    var answered := Answered(schema, questions, info);
    WithoutIsSubsequence(questions, answered);
    WithoutCounts(questions, answered, q);
    assert q in questions <==> multiset(questions)[q] > 0;
  }

  lemma {:induction false} WithoutTwice(questions: seq<string>, a: set<string>, b: set<string>)
    requires a <= b
    ensures Without(Without(questions, a), b) == Without(questions, b)
  {
    if questions != [] {
      var last := questions[|questions| - 1];
      var before := Without(questions[..|questions| - 1], a);
      WithoutTwice(questions[..|questions| - 1], a, b);
      if last !in a {
        assert (before + [last])[..|before|] == before;
      }
    }
  }

  lemma {:induction false} WithoutIn(questions: seq<string>, answered: set<string>)
    ensures forall q :: q in Without(questions, answered) <==> q in questions && q !in answered
  {
    if questions != [] {
      WithoutIn(questions[..|questions| - 1], answered);
      assert questions == questions[..|questions| - 1] + [questions[|questions| - 1]];
    }
  }

  /** Filtering again changes nothing, and with more known it does not matter what was struck out before:
      the list only shrinks. */
  lemma OpenOnlyShrinks(schema: Schema, questions: seq<string>, info: Info, more: Info)
    requires forall key :: Known(info, key) != Absent ==> Known(more, key) != Absent
    ensures Open(schema, Open(schema, questions, info), more) == Open(schema, questions, more)
    ensures IsSubsequence(Open(schema, questions, more), Open(schema, questions, info))
  {
    var a := Answered(schema, questions, info);
    var b := Answered(schema, questions, more);
    forall q | q in a
      ensures q in b
    {
      var key :| key in info && Truthy(info[key]) && q in Answers(schema, key);
      assert Known(info, key) != Absent;
      assert key in more && Truthy(more[key]);
    }
    var first := Without(questions, a);
    WithoutIn(questions, a);
    WithoutTwice(questions, a, b);
    WithoutSame(first, Answered(schema, first, more), b);
    WithoutIsSubsequence(first, Answered(schema, first, more));
  }

  /** Merging a message can only strike questions out. */
  lemma MergingAnswers(schema: Schema, questions: seq<string>, info: Info, extracted: Info)
    ensures IsSubsequence(Open(schema, questions, Merged(schema.keys, info, extracted)), Open(schema, questions, info))
  {
    var more := Merged(schema.keys, info, extracted);
    forall key | Known(info, key) != Absent
      ensures Known(more, key) != Absent
    {
      MergedAt(schema.keys, info, extracted, key);
    }
    OpenOnlyShrinks(schema, questions, info, more);
  }
}
