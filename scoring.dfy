/**
 * How `addAnswer` scores one response (src/hooks/useAssessment.ts): likert
 * items score `value * weight`, multiple-choice items go through the two
 * lookup tables of `calculateMultipleChoiceScore`, boolean items score 0.
 */
module Scoring {
  import opened Wrappers
  import opened JsNumber
  import opened Strings
  import opened Types
  import opened Questions

  /** `correctAnswers`: the 0-based index of the right option of each technical question. */
  const CorrectAnswers: map<string, int> := map[
    "tech_1" := 0, "tech_2" := 1, "tech_3" := 0, "tech_4" := 0,
    "tech_5" := 0, "tech_6" := 0, "tech_7" := 0, "tech_8" := 1]

  /** `wiscarScoring`: the ordinal score of each option of each WISCAR question. */
  const WiscarScoring: map<string, seq<int>> := map[
    "wiscar_1" := [4, 3, 2, 1], "wiscar_2" := [4, 3, 2, 1], "wiscar_3" := [4, 3, 2, 1],
    "wiscar_4" := [4, 3, 2, 1], "wiscar_5" := [4, 3, 2, 1], "wiscar_6" := [4, 3, 2, 1],
    "wiscar_7" := [4, 3, 2, 1]]

  /**
   * `calculateMultipleChoiceScore(questionId, answerIndex, weight)`.  An index
   * outside a WISCAR table reads `undefined`, and `undefined * weight` is NaN.
   */
  function MultipleChoiceScore(questionId: string, answerIndex: int, weight: real): (r: Number)
    ensures r.NaN? ==> questionId in WiscarScoring && !(0 <= answerIndex < |WiscarScoring[questionId]|)
  {
    if StartsWith(questionId, "tech_") && questionId in CorrectAnswers then
      Finite(if answerIndex == CorrectAnswers[questionId] then 5.0 * weight else 1.0 * weight)
    else if StartsWith(questionId, "wiscar_") && questionId in WiscarScoring then
      var table := WiscarScoring[questionId];
      if 0 <= answerIndex < |table| then Finite(table[answerIndex] as real * weight) else NaN
    else
      Finite(answerIndex as real * weight)
  }

  /** The score `addAnswer` gives `value` on question `q` before it records the answer. */
  function AnswerScore(q: Question, value: int): (r: Number)
    ensures r.NaN? ==> q.qtype == MultipleChoice && q.id in WiscarScoring
  {
    match q.qtype
    case Likert => Finite(value as real * q.weight)
    case MultipleChoice => MultipleChoiceScore(q.id, value, q.weight)
    case Boolean => Finite(0.0)
  }

  /**
   * The values the questionnaire offers for `q`: likert 1 to 5, or an option
   * index.  No page renders a boolean item, so none is offered for one.
   */
  predicate Offered(q: Question, value: int)
  {
    match q.qtype
    case Likert => 1 <= value <= 5
    case MultipleChoice => q.options.Some? && 0 <= value < q.options.value
    case Boolean => false
  }

  /** A psychometric (likert, weight 1) item scores its raw value. */
  lemma LikertScoreIsValue(k: nat, value: int)
    requires k < |PsychometricQuestions|
    ensures AnswerScore(PsychometricQuestions[k], value) == Finite(value as real)
  {
    CatalogAt(k);
  }

  /** A multiple-choice item in neither table scores `index * weight`. */
  lemma UnkeyedScore(q: Question, index: int)
    requires q.qtype == MultipleChoice && q.id !in CorrectAnswers && q.id !in WiscarScoring
    ensures AnswerScore(q, index) == Finite(index as real * q.weight)
  {
  }

  /** A boolean item scores 0 whatever the value. */
  lemma BooleanScoresZero(q: Question, value: int)
    requires q.qtype == Boolean
    ensures AnswerScore(q, value) == Finite(0.0)
  {
  }

  /**
   * Every technical identifier has an entry in the key table (option 1 for
   * the two numerical items, option 0 for the rest) and every WISCAR
   * identifier has the ordinal table 4, 3, 2, 1.
   */
  lemma TablesCoverBlocks()
    ensures forall k :: 0 <= k < |TechnicalQuestions| ==>
              && TechnicalQuestions[k].id in CorrectAnswers
              && CorrectAnswers[TechnicalQuestions[k].id]
                 == if TechnicalQuestions[k].subcategory == "numerical" then 1 else 0
    ensures forall k :: 0 <= k < |WiscarQuestions| ==>
              WiscarQuestions[k].id in WiscarScoring && WiscarScoring[WiscarQuestions[k].id] == [4, 3, 2, 1]
  {
  }

  /** A multiple-choice item with a key scores five times its weight on the key and its weight elsewhere. */
  lemma KeyedScore(q: Question, index: int)
    requires q.qtype == MultipleChoice && StartsWith(q.id, "tech_") && q.id in CorrectAnswers
    ensures AnswerScore(q, index)
            == Finite(if index == CorrectAnswers[q.id] then 5.0 * q.weight else q.weight)
  {
  }

  /** A multiple-choice item with an ordinal table 4, 3, 2, 1 scores `(4 - index) * weight`, NaN off the table. */
  lemma OrdinalScore(q: Question, index: int)
    requires q.qtype == MultipleChoice && StartsWith(q.id, "wiscar_")
    requires q.id in WiscarScoring && WiscarScoring[q.id] == [4, 3, 2, 1]
    ensures AnswerScore(q, index)
            == if 0 <= index < 4 then Finite((4 - index) as real * q.weight) else NaN
  {
    assert !StartsWith(q.id, "tech_") by {
      assert q.id[0] == 'w';
    }
  }

  /**
   * Each technical item has an answer key inside its options (option 1 for
   * the two numerical items, option 0 for the rest); the key scores five
   * times the weight and every other index scores the weight.
   */
  lemma TechnicalScoreByKey(k: nat, index: int)
    requires k < |TechnicalQuestions|
    ensures var q := TechnicalQuestions[k];
            && q.id in CorrectAnswers
            && CorrectAnswers[q.id] == (if q.subcategory == "numerical" then 1 else 0)
            && q.options.Some? && 0 <= CorrectAnswers[q.id] < q.options.value
            && AnswerScore(q, index)
               == Finite(if index == CorrectAnswers[q.id] then 5.0 * q.weight else q.weight)
  {
    CatalogAt(10 + k);
    TablesCoverBlocks();
    KeyedScore(TechnicalQuestions[k], index);
  }

  /**
   * A WISCAR item scores `(4 - index) * weight` for the four offered options,
   * best option first, and NaN for any other index.
   */
  lemma WiscarScoreIsOrdinal(k: nat, index: int)
    requires k < |WiscarQuestions|
    ensures var q := WiscarQuestions[k];
            AnswerScore(q, index)
            == if 0 <= index < 4 then Finite((4 - index) as real * q.weight) else NaN
  {
    CatalogAt(18 + k);
    TablesCoverBlocks();
    OrdinalScore(WiscarQuestions[k], index);
  }

  /**
   * The lookup tables cover exactly the multiple-choice items of the catalog:
   * the key table holds the technical identifiers and the ordinal table the
   * WISCAR identifiers, so the `index * weight` fallback never applies to a
   * catalog question.
   */
  lemma TablesCoverCatalog()
    ensures forall id :: id in CorrectAnswers <==>
              exists k :: 0 <= k < |TechnicalQuestions| && TechnicalQuestions[k].id == id
    ensures forall id :: id in WiscarScoring <==>
              exists k :: 0 <= k < |WiscarQuestions| && WiscarQuestions[k].id == id
  {
    TablesCoverBlocks();
    forall id | id in CorrectAnswers
      ensures exists k :: 0 <= k < |TechnicalQuestions| && TechnicalQuestions[k].id == id
    {
      var k := if id == "tech_1" then 0 else if id == "tech_2" then 1 else if id == "tech_3" then 2
               else if id == "tech_4" then 3 else if id == "tech_5" then 4 else if id == "tech_6" then 5
               else if id == "tech_7" then 6 else 7;
      assert TechnicalQuestions[k].id == id;
    }
    forall id | id in WiscarScoring
      ensures exists k :: 0 <= k < |WiscarQuestions| && WiscarQuestions[k].id == id
    {
      var k := if id == "wiscar_1" then 0 else if id == "wiscar_2" then 1 else if id == "wiscar_3" then 2
               else if id == "wiscar_4" then 3 else if id == "wiscar_5" then 4 else if id == "wiscar_6" then 5
               else 6;
      assert WiscarQuestions[k].id == id;
    }
  }

  /**
   * Every value the questionnaire offers on a catalog question scores a
   * finite number between the question's weight and five times it.
   */
  lemma OfferedScoreBounds(k: nat, value: int)
    requires k < |AssessmentQuestions|
    requires Offered(AssessmentQuestions[k], value)
    ensures var q := AssessmentQuestions[k];
            && AnswerScore(q, value).Finite?
            && q.weight <= AnswerScore(q, value).value <= 5.0 * q.weight
  {
    CatalogAt(k);
    if k < 10 {
      PsychometricBounds(k, value);
    } else if k < 18 {
      TechnicalBounds(k - 10, value);
    } else {
      WiscarBounds(k - 18, value);
    }
  }

  /** Bounds of an offered value on a psychometric item. */
  lemma PsychometricBounds(k: nat, value: int)
    requires k < |PsychometricQuestions| && Offered(PsychometricQuestions[k], value)
    ensures var q := PsychometricQuestions[k];
            AnswerScore(q, value).Finite? && q.weight <= AnswerScore(q, value).value <= 5.0 * q.weight
  {
    PsychometricShape();
    LikertScoreIsValue(k, value);
    LikertBounds(PsychometricQuestions[k], value);
  }

  /** Bounds of an offered value on a technical item. */
  lemma TechnicalBounds(k: nat, value: int)
    requires k < |TechnicalQuestions| && Offered(TechnicalQuestions[k], value)
    ensures var q := TechnicalQuestions[k];
            AnswerScore(q, value).Finite? && q.weight <= AnswerScore(q, value).value <= 5.0 * q.weight
  {
    TechnicalShape();
    TechnicalScoreByKey(k, value);
    KeyedBounds(TechnicalQuestions[k], value, CorrectAnswers[TechnicalQuestions[k].id]);
  }

  /** Bounds of an offered value on a WISCAR item. */
  lemma WiscarBounds(k: nat, value: int)
    requires k < |WiscarQuestions| && Offered(WiscarQuestions[k], value)
    ensures var q := WiscarQuestions[k];
            AnswerScore(q, value).Finite? && q.weight <= AnswerScore(q, value).value <= 5.0 * q.weight
  {
    WiscarShape();
    WiscarScoreIsOrdinal(k, value);
    OrdinalBounds(WiscarQuestions[k], value);
  }

  /** An offered likert value on a weight-1 item lies between 1 and 5. */
  lemma LikertBounds(q: Question, value: int)
    requires BlockShape(q, Psychometric) && Offered(q, value)
    requires AnswerScore(q, value) == Finite(value as real)
    ensures AnswerScore(q, value).Finite? && q.weight <= AnswerScore(q, value).value <= 5.0 * q.weight
  {
  }

  /** A keyed score is the weight or five times it. */
  lemma KeyedBounds(q: Question, value: int, key: int)
    requires q.weight > 0.0
    requires AnswerScore(q, value) == Finite(if value == key then 5.0 * q.weight else q.weight)
    ensures AnswerScore(q, value).Finite? && q.weight <= AnswerScore(q, value).value <= 5.0 * q.weight
  {
  }

  /** An ordinal score on one of four options is between one and four times the weight. */
  lemma OrdinalBounds(q: Question, value: int)
    requires q.weight > 0.0 && q.options == Some(4) && Offered(q, value) && q.qtype == MultipleChoice
    requires AnswerScore(q, value) == if 0 <= value < 4 then Finite((4 - value) as real * q.weight) else NaN
    ensures AnswerScore(q, value).Finite? && q.weight <= AnswerScore(q, value).value <= 5.0 * q.weight
  {
    assert 1 <= 4 - value <= 4;
    assert (4 - value) as real * q.weight >= 1.0 * q.weight;
  }
}
