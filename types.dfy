/**
 * The records of the assessment: a catalog question, a recorded answer and
 * the computed result (the interfaces of src/types/assessment.ts).
 */
module Types {
  import opened Wrappers
  import opened JsNumber

  datatype Category = Psychometric | Technical | Wiscar

  datatype QuestionType = Likert | MultipleChoice | Boolean

  /**
   * A catalog entry.  `options` is the number of answer options of a
   * multiple-choice item and is absent for likert items; the wording of the
   * prompt and of the options is display text and is not modelled.
   */
  datatype Question = Question(
    id: string,
    category: Category,
    subcategory: string,
    qtype: QuestionType,
    options: Option<nat>,
    weight: real)

  /** A recorded answer: the raw value (a likert value or an option index) and its score. */
  datatype Answer = Answer(questionId: string, value: int, score: Number)

  datatype Recommendation = Yes | Maybe | No

  datatype WiscarScores = WiscarScores(
    will: Number,
    interest: Number,
    skill: Number,
    cognitive: Number,
    ability: Number,
    reality: Number)

  datatype AssessmentResult = AssessmentResult(
    psychometricScore: Number,
    technicalScore: Number,
    wiscarScores: WiscarScores,
    overallScore: Number,
    recommendation: Recommendation,
    feedback: string,
    suggestedPath: seq<string>,
    skillGaps: seq<string>)
}
