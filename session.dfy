/**
 * The state of `useAssessment` (src/hooks/useAssessment.ts) as an object:
 * the cursor fields, the answer list and the completion flag, with the
 * hook's operations as methods that update them in place.  `Valid` is the
 * invariant every operation keeps: the cursor shows an existing question, and
 * the answers are to catalog questions, one per question, each with the score
 * `addAnswer` gives it.
 */
module Session {
  import opened Wrappers
  import opened JsNumber
  import opened Types
  import opened Questions
  import opened Scoring
  import opened Navigation
  import opened AnswerLog
  import opened IdSets

  /** `addAnswer(questionId, value)` on the answer list: an unknown identifier leaves it unchanged. */
  function RecordAnswer(answers: seq<Answer>, questionId: string, value: int): seq<Answer>
  {
    match FindQuestion(AssessmentQuestions, questionId)
    case None => answers
    case Some(q) => Upsert(answers, Answer(questionId, value, AnswerScore(q, value)))
  }

  /** Every answer is to a catalog question, at most one per question, scored as `addAnswer` scores it. */
  predicate WellFormedAnswers(answers: seq<Answer>)
  {
    && DistinctIds(answers)
    && forall i :: 0 <= i < |answers| ==>
         && IsCatalogId(answers[i].questionId)
         && answers[i].score
            == AnswerScore(FindQuestion(AssessmentQuestions, answers[i].questionId).value, answers[i].value)
  }

  /** Every catalog question has an answer. */
  predicate AllAnswered(answers: seq<Answer>)
  {
    forall k :: 0 <= k < |AssessmentQuestions| ==> Answered(answers, AssessmentQuestions[k].id)
  }

  /** Recording an answer keeps the answer list well formed. */
  lemma RecordKeepsWellFormed(answers: seq<Answer>, questionId: string, value: int)
    requires WellFormedAnswers(answers)
    ensures WellFormedAnswers(RecordAnswer(answers, questionId, value))
  {
    var found := FindQuestion(AssessmentQuestions, questionId);
    if found.Some? {
      var q := found.value;
      var a := Answer(questionId, value, AnswerScore(q, value));
      var r := Upsert(answers, a);
      UpsertKeepsDistinct(answers, a);
      UpsertMembers(answers, a);
      forall i | 0 <= i < |r|
        ensures IsCatalogId(r[i].questionId)
        ensures r[i].score == AnswerScore(FindQuestion(AssessmentQuestions, r[i].questionId).value, r[i].value)
      {
        assert r[i] in r;
        if r[i] != a {
          var j :| 0 <= j < |answers| && answers[j] == r[i];
        }
      }
    }
  }

  /**
   * After recording, the answer to a catalog question is the new answer with
   * the score `addAnswer` computes, and every other question keeps its answer.
   */
  lemma RecordFind(answers: seq<Answer>, questionId: string, value: int, id: string)
    ensures FindAnswer(RecordAnswer(answers, questionId, value), id)
            == match FindQuestion(AssessmentQuestions, questionId)
               case Some(q) => if id == questionId then Some(Answer(questionId, value, AnswerScore(q, value)))
                               else FindAnswer(answers, id)
               case None => FindAnswer(answers, id)
  {
    var found := FindQuestion(AssessmentQuestions, questionId);
    if found.Some? {
      UpsertFind(answers, Answer(questionId, value, AnswerScore(found.value, value)), id);
    }
  }

  /** Recording grows the list by one exactly when a catalog question is answered for the first time. */
  lemma RecordLength(answers: seq<Answer>, questionId: string, value: int)
    ensures |RecordAnswer(answers, questionId, value)|
            == if IsCatalogId(questionId) && !Answered(answers, questionId) then |answers| + 1 else |answers|
  {
    var found := FindQuestion(AssessmentQuestions, questionId);
    if found.Some? {
      UpsertLength(answers, Answer(questionId, value, AnswerScore(found.value, value)));
    }
  }

  /** The identifiers of the catalog, in order. */
  function CatalogIds(): (r: seq<string>)
    ensures |r| == |AssessmentQuestions|
    ensures forall k :: 0 <= k < |AssessmentQuestions| ==> r[k] == AssessmentQuestions[k].id
  {
    seq(|AssessmentQuestions|, k requires 0 <= k < |AssessmentQuestions| => AssessmentQuestions[k].id)
  }

  /** The identifiers of the catalog, as a set. */
  function CatalogIdSet(): set<string>
  {
    Elements(CatalogIds())
  }

  /** The catalog has as many distinct identifiers as questions. */
  lemma CatalogIdCount()
    ensures |CatalogIdSet()| == |AssessmentQuestions|
  {
    IdsUnique();
    DistinctCount(CatalogIds());
  }

  /** An identifier `find` locates in the catalog is one of the catalog's identifiers. */
  lemma CatalogIdMember(id: string)
    requires IsCatalogId(id)
    ensures id in CatalogIdSet()
  {
    var k := CatalogIdIndex(id);
    assert CatalogIds()[k] == id;
  }

  /** Every catalog question is answered exactly when every catalog identifier is. */
  lemma AllAnsweredIffIds(answers: seq<Answer>)
    ensures AllAnswered(answers) <==> forall id :: id in CatalogIdSet() ==> Answered(answers, id)
  {
    if AllAnswered(answers) {
      forall id | id in CatalogIdSet()
        ensures Answered(answers, id)
      {
        var k :| 0 <= k < |CatalogIds()| && CatalogIds()[k] == id;
        assert Answered(answers, AssessmentQuestions[k].id);
      }
    }
    if forall id :: id in CatalogIdSet() ==> Answered(answers, id) {
      forall k | 0 <= k < |AssessmentQuestions|
        ensures Answered(answers, AssessmentQuestions[k].id)
      {
        assert CatalogIds()[k] in CatalogIdSet();
      }
    }
  }

  /**
   * A well-formed answer list holds at most one answer per catalog question,
   * so it is never longer than the catalog, and it is exactly as long as the
   * catalog when every catalog question has an answer.
   */
  lemma AnsweredCount(answers: seq<Answer>)
    ensures WellFormedAnswers(answers) ==>
              |answers| <= |AssessmentQuestions| && (|answers| == |AssessmentQuestions| <==> AllAnswered(answers))
  {
    if WellFormedAnswers(answers) {
      forall i | 0 <= i < |answers|
        ensures answers[i].questionId in CatalogIdSet()
      {
        CatalogIdMember(answers[i].questionId);
      }
      CountWithin(answers, CatalogIdSet());
      CatalogIdCount();
      AllAnsweredIffIds(answers);
    }
  }

  class AssessmentSession {
    var currentSection: nat
    var currentQuestion: nat
    var answers: seq<Answer>
    var isComplete: bool

    /** The cursor fields as one value. */
    function CursorState(): Cursor
      reads this
    {
      Cursor(currentSection, currentQuestion, isComplete)
    }

    /**
     * The invariant the operations keep.  It also records that no section is
     * empty, a fact about the catalog that both moves rely on.
     */
    ghost predicate Valid()
      reads this
    {
      NonEmpty(Sections) && InBounds(Sections, CursorState()) && WellFormedAnswers(answers)
    }

    /** The initial state: first question of the first section, no answers, not complete. */
    constructor()
      ensures CursorState() == Start && answers == []
      ensures Valid()
    {
      currentSection := 0;
      currentQuestion := 0;
      answers := [];
      isComplete := false;
      SectionsNonEmpty();
    }

    /**
     * `addAnswer(questionId, value)`: score the value, then overwrite the
     * answer to the same question in place or append a new one.
     */
    method AddAnswer(questionId: string, value: int)
      requires Valid()
      modifies this
      ensures Valid()
      ensures answers == RecordAnswer(old(answers), questionId, value)
      ensures CursorState() == old(CursorState())
    {
      var question := FindQuestion(AssessmentQuestions, questionId);
      if question.None? {
        return;
      }
      var newAnswer := Answer(questionId, value, AnswerScore(question.value, value));
      var existingIndex := FindAnswerIndex(answers, questionId);
      if existingIndex >= 0 {
        UpsertReplaces(answers, newAnswer, existingIndex);
        answers := answers[existingIndex := newAnswer];
      } else {
        UpsertAppends(answers, newAnswer);
        answers := answers + [newAnswer];
      }
      RecordKeepsWellFormed(old(answers), questionId, value);
    }

    /** `nextQuestion()` */
    method NextQuestion()
      requires Valid()
      modifies this
      ensures Valid()
      ensures CursorState() == Advance(Sections, old(CursorState()))
      ensures answers == old(answers)
    {
      MovesKeepInBounds(Sections, CursorState());
      if currentQuestion < |Sections[currentSection].questions| - 1 {
        currentQuestion := currentQuestion + 1;
      } else if currentSection < |Sections| - 1 {
        currentSection := currentSection + 1;
        currentQuestion := 0;
      } else {
        isComplete := true;
      }
    }

    /** `previousQuestion()` */
    method PreviousQuestion()
      requires Valid()
      modifies this
      ensures Valid()
      ensures CursorState() == Retreat(Sections, old(CursorState()))
      ensures answers == old(answers)
    {
      MovesKeepInBounds(Sections, CursorState());
      if currentQuestion > 0 {
        currentQuestion := currentQuestion - 1;
      } else if currentSection > 0 {
        var prevSectionLength := |Sections[currentSection - 1].questions|;
        currentSection := currentSection - 1;
        currentQuestion := prevSectionLength - 1;
      }
    }

    /** `currentQuestionData`: in a valid state, the catalog question at the cursor's position. */
    function CurrentQuestionData(): (r: Option<Question>)
      reads this
      ensures r.Some? <==> InBounds(Sections, CursorState())
      ensures InBounds(Sections, CursorState()) ==>
                Position(Sections, CursorState()) < |AssessmentQuestions|
                && r == Some(AssessmentQuestions[Position(Sections, CursorState())])
    {
      if InBounds(Sections, CursorState()) then CatalogCursor(CursorState()); CurrentQuestion(Sections, CursorState())
      else CurrentQuestion(Sections, CursorState())
    }

    /** `getCurrentAnswer()`: the recorded answer to the question shown, if any. */
    function GetCurrentAnswer(): (r: Option<Answer>)
      reads this
      ensures r.Some? ==> r.value in answers && CurrentQuestionData().Some?
                          && r.value.questionId == CurrentQuestionData().value.id
      ensures r.None? <==> CurrentQuestionData().None? || !Answered(answers, CurrentQuestionData().value.id)
    {
      match CurrentQuestionData()
      case None => None
      case Some(q) => FindAnswer(answers, q.id)
    }

    /**
     * `progress`: the answered share of the catalog, in percent.  In a valid
     * state it lies between 0 and 100 and reaches 100 exactly when every
     * catalog question has an answer.
     */
    function Progress(): (r: real)
      reads this
      ensures r >= 0.0
      ensures WellFormedAnswers(answers) ==> r <= 100.0 && (r == 100.0 <==> AllAnswered(answers))
    {
      AnsweredCount(answers);
      CatalogLayout();
      var total := |AssessmentQuestions| as real;
      assert total == 25.0;
      OfTwentyFive(|answers|);
      |answers| as real / total * 100.0
    }
  }

  /** A count out of 25, in percent, is four times the count. */
  lemma OfTwentyFive(n: nat)
    ensures n as real / 25.0 * 100.0 == 4.0 * n as real
  {
  }
}
