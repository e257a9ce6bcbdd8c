/**
 * `calculateResults` (src/hooks/useAssessment.ts): a pure function of the
 * recorded answers.  Answers are grouped by identifier prefix; the
 * psychometric and technical scores are clamped means; each WISCAR
 * dimension sums the answers whose identifier INCLUDES the dimension's name,
 * divides by a fixed count and scales; a 0.3/0.4/0.3 blend picks the tier.
 */
module Results {
  import opened Wrappers
  import opened JsNumber
  import opened Strings
  import opened Types
  import opened Questions

  /** `answers.reduce((sum, a) => sum + a.score, 0)`, folding from the left. */
  function SumScores(answers: seq<Answer>): Number
  {
    if answers == [] then Finite(0.0)
    else Add(SumScores(answers[..|answers| - 1]), answers[|answers| - 1].score)
  }

  /** `sum / answers.length`: with no answers this is `0 / 0`, which is NaN. */
  function MeanScore(answers: seq<Answer>): Number
  {
    if |answers| == 0 then NaN else DivideBy(SumScores(answers), |answers| as real)
  }

  /** `answers.filter(a => a.questionId.startsWith(prefix))` */
  function WithPrefix(answers: seq<Answer>, prefix: string): (r: seq<Answer>)
    ensures |r| <= |answers|
    ensures forall a :: a in r <==> a in answers && StartsWith(a.questionId, prefix)
  {
    if answers == [] then []
    else (if StartsWith(answers[0].questionId, prefix) then [answers[0]] else [])
         + WithPrefix(answers[1..], prefix)
  }

  /** The prefix filter keeps every answer with that prefix as often as the list holds it, and no other. */
  lemma {:induction false} WithPrefixCounts(answers: seq<Answer>, prefix: string)
    ensures forall a :: multiset(WithPrefix(answers, prefix))[a] == if StartsWith(a.questionId, prefix) then multiset(answers)[a] else 0
  {
    if answers != [] {
      assert answers == [answers[0]] + answers[1..];
      WithPrefixCounts(answers[1..], prefix);
    }
  }

  /** `answers.filter(a => a.questionId.includes(word))` */
  function Including(answers: seq<Answer>, word: string): (r: seq<Answer>)
    ensures |r| <= |answers|
    ensures forall a :: a in r <==> a in answers && Includes(a.questionId, word)
  {
    if answers == [] then []
    else (if Includes(answers[0].questionId, word) then [answers[0]] else [])
         + Including(answers[1..], word)
  }

  /** The `includes` filter keeps every answer including the word as often as the list holds it, and no other. */
  lemma {:induction false} IncludingCounts(answers: seq<Answer>, word: string)
    ensures forall a :: multiset(Including(answers, word))[a] == if Includes(a.questionId, word) then multiset(answers)[a] else 0
  {
    if answers != [] {
      assert answers == [answers[0]] + answers[1..];
      IncludingCounts(answers[1..], word);
    }
  }

  /** `Math.min(100, mean * 20)` over the `psych_` answers */
  function PsychometricScore(answers: seq<Answer>): (r: Number)
    ensures AtMost(r, 100.0)
  {
    Min(100.0, Scale(MeanScore(WithPrefix(answers, "psych_")), 20.0))
  }

  /** `Math.min(100, mean * 15)` over the `tech_` answers */
  function TechnicalScore(answers: seq<Answer>): (r: Number)
    ensures AtMost(r, 100.0)
  {
    Min(100.0, Scale(MeanScore(WithPrefix(answers, "tech_")), 15.0))
  }

  /** `Math.min(100, sum / divisor * multiplier)` over the WISCAR answers whose identifier includes `word` */
  function DimensionScore(wiscarAnswers: seq<Answer>, word: string, divisor: real, multiplier: real): (r: Number)
    requires divisor != 0.0
    ensures AtMost(r, 100.0)
  {
    Min(100.0, Scale(DivideBy(SumScores(Including(wiscarAnswers, word)), divisor), multiplier))
  }

  /** The six dimension scores: `will` divides by 2 and scales by 12.5, the others by 1 and 25. */
  function WiscarDimensionScores(answers: seq<Answer>): (r: WiscarScores)
    ensures AtMost(r.will, 100.0) && AtMost(r.interest, 100.0) && AtMost(r.skill, 100.0)
            && AtMost(r.cognitive, 100.0) && AtMost(r.ability, 100.0) && AtMost(r.reality, 100.0)
  {
    var w := WithPrefix(answers, "wiscar_");
    WiscarScores(
      DimensionScore(w, "will", 2.0, 12.5),
      DimensionScore(w, "interest", 1.0, 25.0),
      DimensionScore(w, "skill", 1.0, 25.0),
      DimensionScore(w, "cognitive", 1.0, 25.0),
      DimensionScore(w, "ability", 1.0, 25.0),
      DimensionScore(w, "reality", 1.0, 25.0))
  }

  /** `Object.values(wiscarScores).reduce((sum, score) => sum + score, 0) / 6` */
  function WiscarAverage(s: WiscarScores): (r: Number)
    ensures AtMost(s.will, 100.0) && AtMost(s.interest, 100.0) && AtMost(s.skill, 100.0)
            && AtMost(s.cognitive, 100.0) && AtMost(s.ability, 100.0) && AtMost(s.reality, 100.0)
            ==> AtMost(r, 100.0)
    ensures r.Finite? <==> s.will.Finite? && s.interest.Finite? && s.skill.Finite?
                           && s.cognitive.Finite? && s.ability.Finite? && s.reality.Finite?
  {
    DivideBy(Add(Add(Add(Add(Add(Add(Finite(0.0), s.will), s.interest), s.skill), s.cognitive),
                     s.ability), s.reality), 6.0)
  }

  /** `psychometricScore * 0.3 + technicalScore * 0.4 + wiscarAverage * 0.3` */
  function OverallScore(psychometric: Number, technical: Number, wiscarAverage: Number): (r: Number)
    ensures AtMost(psychometric, 100.0) && AtMost(technical, 100.0) && AtMost(wiscarAverage, 100.0)
            ==> AtMost(r, 100.0)
    ensures r.Finite? <==> psychometric.Finite? && technical.Finite? && wiscarAverage.Finite?
  {
    Add(Add(Scale(psychometric, 0.3), Scale(technical, 0.4)), Scale(wiscarAverage, 0.3))
  }

  /** The overall score `calculateResults` computes from the answers, before it renders the texts. */
  function OverallScoreOf(answers: seq<Answer>): (r: Number)
    ensures AtMost(r, 100.0)
  {
    OverallScore(PsychometricScore(answers), TechnicalScore(answers),
                 WiscarAverage(WiscarDimensionScores(answers)))
  }

  /** The tier: `yes` from 70, `maybe` from 40, `no` below 40 and for NaN. */
  function Tier(overall: Number): (r: Recommendation)
    ensures r == Yes <==> AtLeast(overall, 70.0)
    ensures r == Maybe <==> AtLeast(overall, 40.0) && !AtLeast(overall, 70.0)
    ensures r == No <==> !AtLeast(overall, 40.0)
  {
    if AtLeast(overall, 70.0) then Yes
    else if AtLeast(overall, 40.0) then Maybe
    else No
  }

  const YesFeedback: string := "Excellent! You show strong potential for a career as an Environmental Impact Assessor. Your combination of interest, technical aptitude, and psychological fit indicates you would thrive in this field."
  const MaybeFeedback: string := "You show potential but would benefit from developing your foundational knowledge and skills before pursuing this career path. Focus on the recommended learning areas."
  const NoFeedback: string := "Based on your responses, Environmental Impact Assessment may not be the best career fit for you. Consider exploring related environmental careers that better match your interests and strengths."

  /** The feedback sentence of each tier. */
  function Feedback(tier: Recommendation): string
  {
    match tier
    case Yes => YesFeedback
    case Maybe => MaybeFeedback
    case No => NoFeedback
  }

  const YesStep1 := "Begin with EIA fundamentals and regulatory frameworks"
  const YesStep2 := "Develop GIS and spatial analysis skills"
  const YesStep3 := "Practice with real EIA case studies"
  const YesStep4 := "Consider formal certification in environmental assessment"
  const MaybeStep1 := "Start with environmental science fundamentals"
  const MaybeStep2 := "Build basic analytical and technical skills"
  const MaybeStep3 := "Gain exposure through volunteering or entry-level positions"
  const MaybeStep4 := "Reassess your interest and aptitude after gaining experience"
  const NoStep1 := "Explore environmental education or outreach roles"
  const NoStep2 := "Consider environmental policy or communications"
  const NoStep3 := "Look into sustainability consulting or green business"
  const NoStep4 := "Investigate conservation or wildlife management"

  /** The four learning-path steps of each tier. */
  function SuggestedPath(tier: Recommendation): (r: seq<string>)
    ensures |r| == 4
  {
    match tier
    case Yes => [YesStep1, YesStep2, YesStep3, YesStep4]
    case Maybe => [MaybeStep1, MaybeStep2, MaybeStep3, MaybeStep4]
    case No => [NoStep1, NoStep2, NoStep3, NoStep4]
  }

  const TechnicalGap := "Technical knowledge needs strengthening"
  const InterestGap := "Interest and motivation"
  const AnalyticalGap := "Technical knowledge and analytical skills"
  const ReadinessGap := "Professional readiness"
  const AlternativeGap := "Consider alternative environmental career paths"

  /** The position of a `maybe` skill gap in the list: interest, then analytical skills, then readiness. */
  function GapRank(gap: string): nat
  {
    if gap == InterestGap then 0 else if gap == AnalyticalGap then 1 else 2
  }

  /** The tier-specific skill-gap list. */
  function SkillGaps(tier: Recommendation, psychometric: Number, technical: Number, wiscarAverage: Number): (r: seq<string>)
    ensures tier == Yes ==> r == if Below(technical, 70.0) then [TechnicalGap] else []
    ensures tier == Maybe ==>
              && (InterestGap in r <==> Below(psychometric, 50.0))
              && (AnalyticalGap in r <==> Below(technical, 50.0))
              && (ReadinessGap in r <==> Below(wiscarAverage, 50.0))
              && |r| <= 3
              && (forall g :: g in r ==> g == InterestGap || g == AnalyticalGap || g == ReadinessGap)
              && (forall i, j :: 0 <= i < j < |r| ==> GapRank(r[i]) < GapRank(r[j]))
    ensures tier == No ==> r == [AlternativeGap]
  {
    match tier
    case Yes => if Below(technical, 70.0) then [TechnicalGap] else []
    case Maybe =>
      (if Below(psychometric, 50.0) then [InterestGap] else [])
      + (if Below(technical, 50.0) then [AnalyticalGap] else [])
      + (if Below(wiscarAverage, 50.0) then [ReadinessGap] else [])
    case No => [AlternativeGap]
  }

  /**
   * The result record built from the three group scores: the overall blend,
   * its tier and the tier's feedback, path and skill gaps.
   */
  function Summarise(psychometric: Number, technical: Number, dimensions: WiscarScores): (r: AssessmentResult)
    requires AtMost(psychometric, 100.0) && AtMost(technical, 100.0)
    requires AtMost(dimensions.will, 100.0) && AtMost(dimensions.interest, 100.0) && AtMost(dimensions.skill, 100.0)
             && AtMost(dimensions.cognitive, 100.0) && AtMost(dimensions.ability, 100.0) && AtMost(dimensions.reality, 100.0)
    ensures r.psychometricScore == psychometric && r.technicalScore == technical && r.wiscarScores == dimensions
    ensures r.overallScore == OverallScore(psychometric, technical, WiscarAverage(dimensions))
    ensures AtMost(r.overallScore, 100.0)
    ensures r.recommendation == Yes <==> AtLeast(r.overallScore, 70.0)
    ensures r.recommendation == Maybe <==> AtLeast(r.overallScore, 40.0) && !AtLeast(r.overallScore, 70.0)
    ensures r.recommendation == No <==> !AtLeast(r.overallScore, 40.0)
    ensures r.feedback == Feedback(r.recommendation)
    ensures r.suggestedPath == SuggestedPath(r.recommendation) && |r.suggestedPath| == 4
    ensures r.skillGaps == SkillGaps(r.recommendation, r.psychometricScore, r.technicalScore, WiscarAverage(r.wiscarScores))
    ensures r.recommendation == Yes ==>
              r.skillGaps == if Below(r.technicalScore, 70.0) then [TechnicalGap] else []
    ensures r.recommendation == Maybe ==>
              && (InterestGap in r.skillGaps <==> Below(r.psychometricScore, 50.0))
              && (AnalyticalGap in r.skillGaps <==> Below(r.technicalScore, 50.0))
              && (ReadinessGap in r.skillGaps <==> Below(WiscarAverage(r.wiscarScores), 50.0))
              && |r.skillGaps| <= 3
    ensures r.recommendation == No ==> r.skillGaps == [AlternativeGap]
  {
    var avg := WiscarAverage(dimensions);
    var overall := OverallScore(psychometric, technical, avg);
    var tier := Tier(overall);
    AssessmentResult(psychometric, technical, dimensions, overall, tier,
                     Feedback(tier), SuggestedPath(tier), SkillGaps(tier, psychometric, technical, avg))
  }

  /** `calculateResults()` over the recorded answers. */
  function CalculateResults(answers: seq<Answer>): (r: AssessmentResult)
    ensures r.psychometricScore == PsychometricScore(answers) && r.technicalScore == TechnicalScore(answers)
    ensures r.wiscarScores == WiscarDimensionScores(answers)
    ensures r.overallScore == OverallScoreOf(answers) && r.recommendation == Tier(r.overallScore)
    ensures AtMost(r.psychometricScore, 100.0) && AtMost(r.technicalScore, 100.0)
    ensures var w := r.wiscarScores;
            AtMost(w.will, 100.0) && AtMost(w.interest, 100.0) && AtMost(w.skill, 100.0)
            && AtMost(w.cognitive, 100.0) && AtMost(w.ability, 100.0) && AtMost(w.reality, 100.0)
    ensures AtMost(r.overallScore, 100.0)
    ensures r.recommendation == Yes <==> AtLeast(r.overallScore, 70.0)
    ensures r.recommendation == Maybe <==> AtLeast(r.overallScore, 40.0) && !AtLeast(r.overallScore, 70.0)
    ensures r.recommendation == No <==> !AtLeast(r.overallScore, 40.0)
    ensures r.feedback == Feedback(r.recommendation)
    ensures r.suggestedPath == SuggestedPath(r.recommendation) && |r.suggestedPath| == 4
    ensures r.skillGaps == SkillGaps(r.recommendation, r.psychometricScore, r.technicalScore, WiscarAverage(r.wiscarScores))
    ensures r.recommendation == Yes ==>
              r.skillGaps == if Below(r.technicalScore, 70.0) then [TechnicalGap] else []
    ensures r.recommendation == Maybe ==>
              && (InterestGap in r.skillGaps <==> Below(r.psychometricScore, 50.0))
              && (AnalyticalGap in r.skillGaps <==> Below(r.technicalScore, 50.0))
              && (ReadinessGap in r.skillGaps <==> Below(WiscarAverage(r.wiscarScores), 50.0))
              && |r.skillGaps| <= 3
    ensures r.recommendation == No ==> r.skillGaps == [AlternativeGap]
  {
    Summarise(PsychometricScore(answers), TechnicalScore(answers), WiscarDimensionScores(answers))
  }


  /** A sum of finite scores each within `[lo, hi]` is finite and within `[n * lo, n * hi]`. */
  lemma {:induction false} SumWithin(answers: seq<Answer>, lo: real, hi: real)
    requires forall i :: 0 <= i < |answers| ==>
               answers[i].score.Finite? && lo <= answers[i].score.value <= hi
    ensures SumScores(answers).Finite?
    ensures |answers| as real * lo <= SumScores(answers).value <= |answers| as real * hi
  {
    if answers != [] {
      var init := answers[..|answers| - 1];
      assert forall i :: 0 <= i < |init| ==> init[i] == answers[i];
      SumWithin(init, lo, hi);
      var m := |init| as real;
      assert |answers| as real * lo == m * lo + lo;
      assert |answers| as real * hi == m * hi + hi;
    }
  }

  /** One NaN score makes the whole sum NaN. */
  lemma {:induction false} SumPropagatesNaN(answers: seq<Answer>, k: nat)
    requires k < |answers| && answers[k].score.NaN?
    ensures SumScores(answers).NaN?
  {
    if k < |answers| - 1 {
      var init := answers[..|answers| - 1];
      assert init[k] == answers[k];
      SumPropagatesNaN(init, k);
    }
  }

  /** Dividing by a positive count keeps a value between `n * lo` and `n * hi` between `lo` and `hi`. */
  lemma QuotientWithin(sum: real, n: real, lo: real, hi: real)
    requires n > 0.0 && n * lo <= sum <= n * hi
    ensures lo <= sum / n <= hi
  {
  }

  /** The mean of a non-empty group of finite scores within `[lo, hi]` is finite and within `[lo, hi]`. */
  lemma MeanWithin(answers: seq<Answer>, lo: real, hi: real)
    requires |answers| > 0
    requires forall i :: 0 <= i < |answers| ==>
               answers[i].score.Finite? && lo <= answers[i].score.value <= hi
    ensures MeanScore(answers).Finite?
    ensures lo <= MeanScore(answers).value <= hi
  {
    var n := |answers| as real;
    assert MeanScore(answers) == DivideBy(SumScores(answers), n);
    SumWithin(answers, lo, hi);
    QuotientWithin(SumScores(answers).value, n, lo, hi);
  }

  /**
   * An empty group has a NaN mean, so its clamped score is NaN, never 0, and
   * one empty group makes the overall score NaN and the tier `no`.
   */
  lemma EmptyGroupIsNaN(answers: seq<Answer>)
    ensures WithPrefix(answers, "psych_") == [] ==> PsychometricScore(answers).NaN?
    ensures WithPrefix(answers, "tech_") == [] ==> TechnicalScore(answers).NaN?
    ensures WithPrefix(answers, "psych_") == [] || WithPrefix(answers, "tech_") == [] ==>
              OverallScoreOf(answers).NaN? && Tier(OverallScoreOf(answers)) == No
  {
  }

  /**
   * With no answers the psychometric, technical and overall scores are NaN,
   * every dimension is 0 and the tier is `no`.
   */
  lemma NoAnswersResult(answers: seq<Answer>)
    requires answers == []
    ensures PsychometricScore(answers).NaN? && TechnicalScore(answers).NaN?
    ensures WiscarDimensionScores(answers)
            == WiscarScores(Finite(0.0), Finite(0.0), Finite(0.0), Finite(0.0), Finite(0.0), Finite(0.0))
    ensures OverallScoreOf(answers).NaN? && Tier(OverallScoreOf(answers)) == No
  {
    EmptyGroupIsNaN(answers);
    DimensionsZeroWithoutLetters(answers);
  }

  /** The feedback sentence and the learning path each tell the tiers apart. */
  lemma TierTexts(a: Recommendation, b: Recommendation)
    ensures Feedback(a) == Feedback(b) <==> a == b
    ensures SuggestedPath(a) == SuggestedPath(b) <==> a == b
  {
    assert |YesFeedback| == 200 && |MaybeFeedback| == 166 && |NoFeedback| == 193;
    assert |YesStep1| == 53 && |MaybeStep1| == 45 && |NoStep1| == 49;
  }

  /** The tier never drops as the overall score rises. */
  lemma TierMonotone(x: real, y: real)
    requires x <= y
    ensures Tier(Finite(x)) == Yes ==> Tier(Finite(y)) == Yes
    ensures Tier(Finite(x)) == Maybe ==> Tier(Finite(y)) != No
  {
  }

  /** The six names the dimension scores filter on. */
  predicate IsDimensionName(word: string)
  {
    word == "will" || word == "interest" || word == "skill"
    || word == "cognitive" || word == "ability" || word == "reality"
  }

  /** Every dimension name contains an `l` or an `n`, so no identifier lacking both letters includes one. */
  lemma NoDimensionWithoutLetters(id: string, word: string)
    requires IsDimensionName(word)
    requires 'l' !in id && 'n' !in id
    ensures !Includes(id, word)
  {
    if word == "interest" || word == "cognitive" {
      assert word[1] == 'n' || word[3] == 'n';
      MissingCharExcludes(id, word, 'n');
    } else {
      assert 'l' in word by {
        if word == "will" { assert word[2] == 'l'; }
        else if word == "skill" { assert word[3] == 'l'; }
        else if word == "ability" { assert word[3] == 'l'; }
        else { assert word[3] == 'l'; }
      }
      MissingCharExcludes(id, word, 'l');
    }
  }

  /** No catalog identifier includes the name of a WISCAR dimension. */
  lemma CatalogIdNamesNoDimension(id: string, word: string)
    requires IsCatalogId(id)
    requires IsDimensionName(word)
    ensures !Includes(id, word)
  {
    var k := CatalogIdIndex(id);
    IdLetters(k);
    NoDimensionWithoutLetters(id, word);
  }

  /** A dimension over answers none of whose identifiers includes its name scores 0. */
  lemma UnmatchedDimensionIsZero(wiscarAnswers: seq<Answer>, word: string, divisor: real, multiplier: real)
    requires divisor != 0.0
    requires forall a :: a in wiscarAnswers ==> !Includes(a.questionId, word)
    ensures DimensionScore(wiscarAnswers, word, divisor, multiplier) == Finite(0.0)
  {
  }

  /** A dimension over answers whose identifiers lack the letters `l` and `n` scores 0. */
  lemma LetterlessDimensionIsZero(wiscarAnswers: seq<Answer>, word: string, divisor: real, multiplier: real)
    requires divisor != 0.0 && IsDimensionName(word)
    requires forall a :: a in wiscarAnswers ==> 'l' !in a.questionId && 'n' !in a.questionId
    ensures DimensionScore(wiscarAnswers, word, divisor, multiplier) == Finite(0.0)
  {
    forall a | a in wiscarAnswers
      ensures !Includes(a.questionId, word)
    {
      NoDimensionWithoutLetters(a.questionId, word);
    }
    UnmatchedDimensionIsZero(wiscarAnswers, word, divisor, multiplier);
  }

  /** Over answers whose identifiers lack the letters `l` and `n`, every dimension scores 0. */
  lemma DimensionsZeroWithoutLetters(answers: seq<Answer>)
    requires forall a :: a in answers ==> 'l' !in a.questionId && 'n' !in a.questionId
    ensures WiscarDimensionScores(answers)
            == WiscarScores(Finite(0.0), Finite(0.0), Finite(0.0), Finite(0.0), Finite(0.0), Finite(0.0))
  {
    var w := WithPrefix(answers, "wiscar_");
    LetterlessDimensionIsZero(w, "will", 2.0, 12.5);
    LetterlessDimensionIsZero(w, "interest", 1.0, 25.0);
    LetterlessDimensionIsZero(w, "skill", 1.0, 25.0);
    LetterlessDimensionIsZero(w, "cognitive", 1.0, 25.0);
    LetterlessDimensionIsZero(w, "ability", 1.0, 25.0);
    LetterlessDimensionIsZero(w, "reality", 1.0, 25.0);
  }

  /**
   * For answers to catalog questions every WISCAR dimension score is 0: the
   * catalog identifiers are `wiscar_1` to `wiscar_7`, which include none of
   * the dimension names the scores filter on.
   */
  lemma CatalogDimensionsZero(answers: seq<Answer>)
    requires forall i :: 0 <= i < |answers| ==> IsCatalogId(answers[i].questionId)
    ensures WiscarDimensionScores(answers)
            == WiscarScores(Finite(0.0), Finite(0.0), Finite(0.0), Finite(0.0), Finite(0.0), Finite(0.0))
  {
    forall a | a in answers
      ensures 'l' !in a.questionId && 'n' !in a.questionId
    {
      var i :| 0 <= i < |answers| && answers[i] == a;
      var k := CatalogIdIndex(a.questionId);
      IdLetters(k);
    }
    DimensionsZeroWithoutLetters(answers);
  }

  /** With every dimension 0 the overall score is the psychometric and technical blend, at most 70. */
  lemma ZeroDimensionsCapOverall(answers: seq<Answer>)
    requires WiscarDimensionScores(answers)
             == WiscarScores(Finite(0.0), Finite(0.0), Finite(0.0), Finite(0.0), Finite(0.0), Finite(0.0))
    ensures AtMost(OverallScoreOf(answers), 70.0)
    ensures OverallScoreOf(answers).Finite? ==>
              OverallScoreOf(answers).value
              == 0.3 * PsychometricScore(answers).value + 0.4 * TechnicalScore(answers).value
  {
  }

  /**
   * For answers to catalog questions the overall score is at most 70 (or
   * NaN): the WISCAR third of the blend is always 0.
   */
  lemma OverallAtMost70(answers: seq<Answer>)
    requires forall i :: 0 <= i < |answers| ==> IsCatalogId(answers[i].questionId)
    ensures AtMost(OverallScoreOf(answers), 70.0)
    ensures OverallScoreOf(answers).Finite? ==>
              OverallScoreOf(answers).value
              == 0.3 * PsychometricScore(answers).value + 0.4 * TechnicalScore(answers).value
  {
    CatalogDimensionsZero(answers);
    ZeroDimensionsCapOverall(answers);
  }

  /**
   * For answers to catalog questions the tier is `yes` only when both the
   * psychometric and the technical score are exactly 100, and the overall
   * score is then exactly 70.
   */
  lemma YesNeedsFullMarks(answers: seq<Answer>)
    requires forall i :: 0 <= i < |answers| ==> IsCatalogId(answers[i].questionId)
    requires Tier(OverallScoreOf(answers)) == Yes
    ensures PsychometricScore(answers) == Finite(100.0) && TechnicalScore(answers) == Finite(100.0)
    ensures OverallScoreOf(answers) == Finite(70.0)
  {
    OverallAtMost70(answers);
  }
}
