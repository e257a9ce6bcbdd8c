/**
 * The list of recorded answers that `addAnswer` maintains
 * (src/hooks/useAssessment.ts): at most one answer per question identifier,
 * a later answer to the same question replacing the earlier one in place and
 * an answer to a new question going to the end.  `Upsert` is the reference
 * definition of that update; the session's method performs it with
 * `findIndex` and an indexed write and is proved equal to it.
 */
module AnswerLog {
  import opened Wrappers
  import opened Types
  import opened IdSets

  /** No two answers share a question identifier. */
  predicate DistinctIds(answers: seq<Answer>)
  {
    forall i, j :: 0 <= i < j < |answers| ==> answers[i].questionId != answers[j].questionId
  }

  /** Some answer has identifier `id`. */
  predicate Answered(answers: seq<Answer>, id: string)
  {
    exists i :: 0 <= i < |answers| && answers[i].questionId == id
  }

  /** `answers.find(a => a.questionId === id)`: the first answer to `id`, if any. */
  function FindAnswer(answers: seq<Answer>, id: string): (r: Option<Answer>)
    ensures r.None? <==> !Answered(answers, id)
    ensures r.Some? ==> r.value in answers && r.value.questionId == id
    ensures r.Some? ==> exists i :: 0 <= i < |answers| && answers[i] == r.value
                                    && forall j :: 0 <= j < i ==> answers[j].questionId != id
  {
    if answers == [] then None
    else if answers[0].questionId == id then Some(answers[0])
    else
      var r := FindAnswer(answers[1..], id);
      assert Answered(answers[1..], id) ==> Answered(answers, id) by {
        if Answered(answers[1..], id) {
          var i :| 0 <= i < |answers[1..]| && answers[1..][i].questionId == id;
          assert answers[i + 1].questionId == id;
        }
      }
      r
  }

  /**
   * `answers.findIndex(a => a.questionId === id)`: the index of the first
   * answer to `id`, or -1 when there is none.
   */
  method FindAnswerIndex(answers: seq<Answer>, id: string) returns (index: int)
    ensures index == -1 <==> !Answered(answers, id)
    ensures index != -1 ==>
              0 <= index < |answers| && answers[index].questionId == id
              && forall j :: 0 <= j < index ==> answers[j].questionId != id
  {
    index := 0;
    while index < |answers|
      invariant 0 <= index <= |answers|
      invariant forall j :: 0 <= j < index ==> answers[j].questionId != id
    {
      if answers[index].questionId == id {
        return;
      }
      index := index + 1;
    }
    index := -1;
  }

  /** Record `a`: replace the answer with the same identifier, or append `a` when there is none. */
  function Upsert(answers: seq<Answer>, a: Answer): (r: seq<Answer>)
    ensures a in r
    ensures |answers| <= |r| <= |answers| + 1
  {
    if answers == [] then [a]
    else if answers[0].questionId == a.questionId then [a] + answers[1..]
    else [answers[0]] + Upsert(answers[1..], a)
  }

  /** With an earlier answer to the same question at `k` (the first such), `Upsert` overwrites position `k`. */
  lemma {:induction false} UpsertReplaces(answers: seq<Answer>, a: Answer, k: nat)
    requires k < |answers| && answers[k].questionId == a.questionId
    requires forall j :: 0 <= j < k ==> answers[j].questionId != a.questionId
    ensures Upsert(answers, a) == answers[k := a]
  {
    if k > 0 {
      assert answers[0].questionId != a.questionId;
      UpsertReplaces(answers[1..], a, k - 1);
      assert answers[k := a] == [answers[0]] + answers[1..][k - 1 := a];
    }
  }

  /** Without an earlier answer to the same question, `Upsert` appends. */
  lemma {:induction false} UpsertAppends(answers: seq<Answer>, a: Answer)
    requires !Answered(answers, a.questionId)
    ensures Upsert(answers, a) == answers + [a]
  {
    if answers != [] {
      assert answers[0].questionId != a.questionId;
      UpsertAppends(answers[1..], a);
      assert answers + [a] == [answers[0]] + (answers[1..] + [a]);
    }
  }

  /** After `Upsert` the answer to `a`'s question is `a`, and every other question keeps its answer. */
  lemma {:induction false} UpsertFind(answers: seq<Answer>, a: Answer, id: string)
    ensures FindAnswer(Upsert(answers, a), id)
            == if id == a.questionId then Some(a) else FindAnswer(answers, id)
  {
    if answers != [] && answers[0].questionId != a.questionId {
      UpsertFind(answers[1..], a, id);
    }
  }

  /** `Upsert` keeps the length when the question was answered and adds one otherwise. */
  lemma {:induction false} UpsertLength(answers: seq<Answer>, a: Answer)
    ensures |Upsert(answers, a)| == if Answered(answers, a.questionId) then |answers| else |answers| + 1
  {
    if !Answered(answers, a.questionId) {
      UpsertAppends(answers, a);
    } else {
      var k :| 0 <= k < |answers| && answers[k].questionId == a.questionId;
      var first := FirstAnswerIndex(answers, a.questionId, k);
      UpsertReplaces(answers, a, first);
    }
  }

  /** The answers after `Upsert` are `a` and the answers to the other questions. */
  lemma {:induction false} UpsertMembers(answers: seq<Answer>, a: Answer)
    requires DistinctIds(answers)
    ensures forall b :: b in Upsert(answers, a) <==> b == a || (b in answers && b.questionId != a.questionId)
  {
    if answers != [] {
      assert DistinctIds(answers[1..]) by {
        forall i, j | 0 <= i < j < |answers[1..]|
          ensures answers[1..][i].questionId != answers[1..][j].questionId
        {
          assert answers[1..][i] == answers[i + 1] && answers[1..][j] == answers[j + 1];
        }
      }
      UpsertMembers(answers[1..], a);
      if answers[0].questionId == a.questionId {
        forall b | b in answers[1..]
          ensures b.questionId != a.questionId
        {
          var j :| 0 <= j < |answers[1..]| && answers[1..][j] == b;
          assert answers[j + 1] == b;
        }
      }
    }
  }

  /** `Upsert` keeps the identifiers distinct. */
  lemma UpsertKeepsDistinct(answers: seq<Answer>, a: Answer)
    requires DistinctIds(answers)
    ensures DistinctIds(Upsert(answers, a))
  {
    if Answered(answers, a.questionId) {
      var k :| 0 <= k < |answers| && answers[k].questionId == a.questionId;
      var first := FirstAnswerIndex(answers, a.questionId, k);
      UpsertReplaces(answers, a, first);
    } else {
      UpsertAppends(answers, a);
      forall i | 0 <= i < |answers|
        ensures answers[i].questionId != a.questionId
      {
      }
    }
  }

  /** Recording the same answer twice is the same as recording it once. */
  lemma {:induction false} UpsertIdempotent(answers: seq<Answer>, a: Answer)
    ensures Upsert(Upsert(answers, a), a) == Upsert(answers, a)
  {
    if answers != [] && answers[0].questionId != a.questionId {
      UpsertIdempotent(answers[1..], a);
    }
  }

  /** Some answer to `id` at or before `k` is the first one. */
  lemma {:induction false} FirstAnswerIndex(answers: seq<Answer>, id: string, k: nat) returns (first: nat)
    requires k < |answers| && answers[k].questionId == id
    ensures first <= k && answers[first].questionId == id
    ensures forall j :: 0 <= j < first ==> answers[j].questionId != id
  {
    if exists j :: 0 <= j < k && answers[j].questionId == id {
      var j :| 0 <= j < k && answers[j].questionId == id;
      first := FirstAnswerIndex(answers, id, j);
    } else {
      first := k;
    }
  }

  /** The identifiers of a list of answers, in order. */
  function AnswerIds(answers: seq<Answer>): (r: seq<string>)
    ensures |r| == |answers|
    ensures forall i :: 0 <= i < |answers| ==> r[i] == answers[i].questionId
  {
    if answers == [] then [] else [answers[0].questionId] + AnswerIds(answers[1..])
  }

  /** An identifier is among the answered ones exactly when some answer has it. */
  lemma AnsweredIds(answers: seq<Answer>)
    ensures forall id :: id in Elements(AnswerIds(answers)) <==> Answered(answers, id)
  {
    forall id | Answered(answers, id)
      ensures id in AnswerIds(answers)
    {
      var i :| 0 <= i < |answers| && answers[i].questionId == id;
      assert AnswerIds(answers)[i] == id;
    }
  }

  /** Answers with distinct identifiers answer as many questions as there are answers. */
  lemma AnsweredIdCount(answers: seq<Answer>)
    requires DistinctIds(answers)
    ensures |Elements(AnswerIds(answers))| == |answers|
  {
    var ids := AnswerIds(answers);
    assert Distinct(ids) by {
      forall i, j | 0 <= i < j < |ids|
        ensures ids[i] != ids[j]
      {
        assert ids[i] == answers[i].questionId && ids[j] == answers[j].questionId;
      }
    }
    DistinctCount(ids);
  }

  /**
   * Answers with distinct identifiers drawn from a finite set are no more
   * than the set's elements, and exactly as many when every element is answered.
   */
  lemma CountWithin(answers: seq<Answer>, universe: set<string>)
    requires DistinctIds(answers)
    requires forall i :: 0 <= i < |answers| ==> answers[i].questionId in universe
    ensures |answers| <= |universe|
    ensures |answers| == |universe| <==> forall id :: id in universe ==> Answered(answers, id)
  {
    var given := Elements(AnswerIds(answers));
    AnsweredIds(answers);
    AnsweredIdCount(answers);
    assert given <= universe;
    if forall id :: id in universe ==> Answered(answers, id) {
      assert given == universe;
    }
    SubsetCount(given, universe);
  }
}
