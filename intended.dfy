/**
 * The scoring `calculateResults` evidently intends, next to the one it
 * performs (module Results):
 *  - a WISCAR dimension groups the answers to the questions whose
 *    SUBCATEGORY is the dimension's name, where the code tests whether the
 *    question IDENTIFIER includes the name, which no catalog identifier does;
 *  - an empty psychometric or technical group averages to 0, where the code
 *    divides 0 by 0 and gets NaN.
 * The divisors and multipliers stay as written.  The lemmas show that the
 * most favourable answer to every catalog question scores 70 as written and
 * 100 as intended, and that no answers score NaN as written and 0 as intended.
 */
module Intended {
  import opened Wrappers
  import opened JsNumber
  import opened Strings
  import opened Types
  import opened Questions
  import opened Scoring
  import opened Results
  import opened AnswerLog
  import opened Session

  /** The mean of a group's scores, 0 for an empty group. */
  function IntendedMean(group: seq<Answer>): (r: Number)
    ensures group == [] ==> r == Finite(0.0)
    ensures group != [] ==> r == MeanScore(group)
    ensures r.NaN? ==> exists i :: 0 <= i < |group| && group[i].score.NaN?
  {
    if group == [] then Finite(0.0)
    else
      NaNFromScore(group);
      MeanScore(group)
  }

  /** A NaN sum comes from a NaN score. */
  lemma {:induction false} NaNFromScore(group: seq<Answer>)
    ensures SumScores(group).NaN? ==> exists i :: 0 <= i < |group| && group[i].score.NaN?
  {
    if group != [] && SumScores(group).NaN? {
      var init := group[..|group| - 1];
      NaNFromScore(init);
      if SumScores(init).NaN? {
        var i :| 0 <= i < |init| && init[i].score.NaN?;
        assert group[i] == init[i];
      }
    }
  }

  /** The psychometric score with an empty group scoring 0. */
  function IntendedPsychometricScore(answers: seq<Answer>): (r: Number)
    ensures AtMost(r, 100.0)
  {
    Min(100.0, Scale(IntendedMean(WithPrefix(answers, "psych_")), 20.0))
  }

  /** The technical score with an empty group scoring 0. */
  function IntendedTechnicalScore(answers: seq<Answer>): (r: Number)
    ensures AtMost(r, 100.0)
  {
    Min(100.0, Scale(IntendedMean(WithPrefix(answers, "tech_")), 15.0))
  }

  /** The subcategory of the question of `catalog` with identifier `id`, empty for an unknown identifier. */
  function SubcategoryIn(catalog: seq<Question>, id: string): string
  {
    match FindQuestion(catalog, id)
    case Some(q) => q.subcategory
    case None => ""
  }

  /** The answers to questions of `catalog` whose subcategory is `word`. */
  function InDimension(catalog: seq<Question>, answers: seq<Answer>, word: string): (r: seq<Answer>)
    ensures |r| <= |answers|
    ensures forall a :: a in r <==> a in answers && SubcategoryIn(catalog, a.questionId) == word
  {
    if answers == [] then []
    else (if SubcategoryIn(catalog, answers[0].questionId) == word then [answers[0]] else [])
         + InDimension(catalog, answers[1..], word)
  }

  /** The subcategory filter keeps every answer of that dimension as often as the list holds it, and no other. */
  lemma {:induction false} InDimensionCounts(catalog: seq<Question>, answers: seq<Answer>, word: string)
    ensures forall a :: multiset(InDimension(catalog, answers, word))[a]
                        == if SubcategoryIn(catalog, a.questionId) == word then multiset(answers)[a] else 0
  {
    if answers != [] {
      assert answers == [answers[0]] + answers[1..];
      InDimensionCounts(catalog, answers[1..], word);
    }
  }

  /** A dimension score over the answers of that subcategory, with the divisor and multiplier as written. */
  function IntendedDimensionScore(catalog: seq<Question>, wiscarAnswers: seq<Answer>, word: string, divisor: real, multiplier: real): (r: Number)
    requires divisor != 0.0
    ensures AtMost(r, 100.0)
  {
    Min(100.0, Scale(DivideBy(SumScores(InDimension(catalog, wiscarAnswers, word)), divisor), multiplier))
  }

  /** The six dimension scores, grouped by subcategory. */
  function IntendedDimensionScores(answers: seq<Answer>): (r: WiscarScores)
    ensures AtMost(r.will, 100.0) && AtMost(r.interest, 100.0) && AtMost(r.skill, 100.0)
            && AtMost(r.cognitive, 100.0) && AtMost(r.ability, 100.0) && AtMost(r.reality, 100.0)
  {
    var w := WithPrefix(answers, "wiscar_");
    WiscarScores(
      IntendedDimensionScore(AssessmentQuestions, w, "will", 2.0, 12.5),
      IntendedDimensionScore(AssessmentQuestions, w, "interest", 1.0, 25.0),
      IntendedDimensionScore(AssessmentQuestions, w, "skill", 1.0, 25.0),
      IntendedDimensionScore(AssessmentQuestions, w, "cognitive", 1.0, 25.0),
      IntendedDimensionScore(AssessmentQuestions, w, "ability", 1.0, 25.0),
      IntendedDimensionScore(AssessmentQuestions, w, "reality", 1.0, 25.0))
  }

  /** The overall blend of the intended scores. */
  function IntendedOverallScoreOf(answers: seq<Answer>): (r: Number)
    ensures AtMost(r, 100.0)
  {
    OverallScore(IntendedPsychometricScore(answers), IntendedTechnicalScore(answers),
                 WiscarAverage(IntendedDimensionScores(answers)))
  }

  /**
   * With a psychometric and a technical answer the intended psychometric and
   * technical scores are the ones the code computes: only empty groups differ.
   */
  lemma IntendedAgreesOnNonEmptyGroups(answers: seq<Answer>)
    ensures WithPrefix(answers, "psych_") != [] ==> IntendedPsychometricScore(answers) == PsychometricScore(answers)
    ensures WithPrefix(answers, "tech_") != [] ==> IntendedTechnicalScore(answers) == TechnicalScore(answers)
  {
  }

  /** With no answers every intended score is 0 and the tier is `no`. */
  lemma IntendedNoAnswers(answers: seq<Answer>)
    requires answers == []
    ensures IntendedPsychometricScore(answers) == Finite(0.0) && IntendedTechnicalScore(answers) == Finite(0.0)
    ensures IntendedDimensionScores(answers)
            == WiscarScores(Finite(0.0), Finite(0.0), Finite(0.0), Finite(0.0), Finite(0.0), Finite(0.0))
    ensures IntendedOverallScoreOf(answers) == Finite(0.0) && Tier(IntendedOverallScoreOf(answers)) == No
  {
    var w := WithPrefix(answers, "wiscar_");
    assert WithPrefix(answers, "psych_") == [] && WithPrefix(answers, "tech_") == [] && w == [];
    EmptyDimensionIsZero(AssessmentQuestions, w, "will", 2.0, 12.5);
    EmptyDimensionIsZero(AssessmentQuestions, w, "interest", 1.0, 25.0);
    EmptyDimensionIsZero(AssessmentQuestions, w, "skill", 1.0, 25.0);
    EmptyDimensionIsZero(AssessmentQuestions, w, "cognitive", 1.0, 25.0);
    EmptyDimensionIsZero(AssessmentQuestions, w, "ability", 1.0, 25.0);
    EmptyDimensionIsZero(AssessmentQuestions, w, "reality", 1.0, 25.0);
  }

  /** A dimension with no WISCAR answers scores 0. */
  lemma EmptyDimensionIsZero(catalog: seq<Question>, wiscarAnswers: seq<Answer>, word: string, divisor: real, multiplier: real)
    requires divisor != 0.0 && wiscarAnswers == []
    ensures IntendedDimensionScore(catalog, wiscarAnswers, word, divisor, multiplier) == Finite(0.0)
  {
    assert InDimension(catalog, wiscarAnswers, word) == [];
  }

  /** The most favourable response to `q`: likert 5, the key of a technical item, the first option otherwise. */
  function FavourableValue(q: Question): int
  {
    match q.category
    case Psychometric => 5
    case Technical => if q.id in CorrectAnswers then CorrectAnswers[q.id] else 0
    case Wiscar => 0
  }

  /** The scored answer `addAnswer` records for the most favourable response to `q`. */
  function FavourableAnswer(q: Question): (a: Answer)
    ensures a.questionId == q.id
  {
    Answer(q.id, FavourableValue(q), AnswerScore(q, FavourableValue(q)))
  }

  /** The most favourable answer to each question of `qs`, in order. */
  function FavourableAnswers(qs: seq<Question>): (r: seq<Answer>)
    ensures |r| == |qs|
    ensures forall i :: 0 <= i < |qs| ==> r[i] == FavourableAnswer(qs[i])
  {
    if qs == [] then [] else [FavourableAnswer(qs[0])] + FavourableAnswers(qs[1..])
  }

  /** The questions of `qs` whose subcategory is `word`, in order. */
  function BySubcategory(qs: seq<Question>, word: string): (r: seq<Question>)
    ensures forall q :: q in r <==> q in qs && q.subcategory == word
  {
    if qs == [] then []
    else (if qs[0].subcategory == word then [qs[0]] else []) + BySubcategory(qs[1..], word)
  }

  /** The favourable answers to two lists of questions, one after the other. */
  lemma {:induction false} FavourableConcat(a: seq<Question>, b: seq<Question>)
    ensures FavourableAnswers(a + b) == FavourableAnswers(a) + FavourableAnswers(b)
  {
    if a != [] {
      assert (a + b)[1..] == a[1..] + b;
      FavourableConcat(a[1..], b);
    }
  }

  /** Filtering by prefix distributes over concatenation. */
  lemma {:induction false} WithPrefixConcat(a: seq<Answer>, b: seq<Answer>, prefix: string)
    ensures WithPrefix(a + b, prefix) == WithPrefix(a, prefix) + WithPrefix(b, prefix)
  {
    if a == [] {
      assert a + b == b;
    } else {
      assert (a + b)[0] == a[0] && (a + b)[1..] == a[1..] + b;
      WithPrefixConcat(a[1..], b, prefix);
    }
  }

  /** A catalog identifier starts with its own category's prefix and with no other. */
  lemma BlockPrefix(q: Question, c: Category, d: Category)
    requires BlockShape(q, c)
    ensures StartsWith(q.id, CategoryPrefix(d)) <==> c == d
  {
    var p := CategoryPrefix(c);
    assert q.id[..|p|] == p;
    assert q.id[0] == p[0];
  }

  /** Of the favourable answers to one block, a prefix keeps all or none. */
  lemma {:induction false} FavourablePrefixGroup(qs: seq<Question>, c: Category, d: Category)
    requires forall i :: 0 <= i < |qs| ==> BlockShape(qs[i], c)
    ensures WithPrefix(FavourableAnswers(qs), CategoryPrefix(d)) == if c == d then FavourableAnswers(qs) else []
  {
    if qs != [] {
      var r := FavourableAnswers(qs);
      assert r[1..] == FavourableAnswers(qs[1..]);
      BlockPrefix(qs[0], c, d);
      FavourablePrefixGroup(qs[1..], c, d);
    }
  }

  /** Of the favourable answers to three blocks, each prefix selects the answers to its own block. */
  lemma {:induction false} GroupsOfThree(x: seq<Question>, y: seq<Question>, z: seq<Question>, d: Category)
    requires forall i :: 0 <= i < |x| ==> BlockShape(x[i], Psychometric)
    requires forall i :: 0 <= i < |y| ==> BlockShape(y[i], Technical)
    requires forall i :: 0 <= i < |z| ==> BlockShape(z[i], Wiscar)
    ensures WithPrefix(FavourableAnswers(x + y + z), CategoryPrefix(d))
            == (if d == Psychometric then FavourableAnswers(x) else [])
               + (if d == Technical then FavourableAnswers(y) else [])
               + (if d == Wiscar then FavourableAnswers(z) else [])
  {
    var fx, fy, fz, p := FavourableAnswers(x), FavourableAnswers(y), FavourableAnswers(z), CategoryPrefix(d);
    FavourableConcat(x + y, z);
    FavourableConcat(x, y);
    assert FavourableAnswers(x + y + z) == fx + fy + fz;
    WithPrefixConcat(fx + fy, fz, p);
    WithPrefixConcat(fx, fy, p);
    FavourablePrefixGroup(x, Psychometric, d);
    FavourablePrefixGroup(y, Technical, d);
    FavourablePrefixGroup(z, Wiscar, d);
  }

  /** Of the favourable answers to three blocks, each block's prefix selects the answers to that block. */
  lemma {:induction false} ThreeGroups(x: seq<Question>, y: seq<Question>, z: seq<Question>)
    requires forall i :: 0 <= i < |x| ==> BlockShape(x[i], Psychometric)
    requires forall i :: 0 <= i < |y| ==> BlockShape(y[i], Technical)
    requires forall i :: 0 <= i < |z| ==> BlockShape(z[i], Wiscar)
    ensures WithPrefix(FavourableAnswers(x + y + z), "psych_") == FavourableAnswers(x)
    ensures WithPrefix(FavourableAnswers(x + y + z), "tech_") == FavourableAnswers(y)
    ensures WithPrefix(FavourableAnswers(x + y + z), "wiscar_") == FavourableAnswers(z)
  {
    var fx, fy, fz := FavourableAnswers(x), FavourableAnswers(y), FavourableAnswers(z);
    GroupsOfThree(x, y, z, Psychometric);
    assert fx + [] + [] == fx;
    GroupsOfThree(x, y, z, Technical);
    assert [] + fy + [] == fy;
    GroupsOfThree(x, y, z, Wiscar);
    assert [] + [] + fz == fz;
  }

  /** The favourable catalog answers fall into the three blocks by prefix. */
  lemma FavourableGroups()
    ensures WithPrefix(FavourableAnswers(AssessmentQuestions), "psych_") == FavourableAnswers(PsychometricQuestions)
    ensures WithPrefix(FavourableAnswers(AssessmentQuestions), "tech_") == FavourableAnswers(TechnicalQuestions)
    ensures WithPrefix(FavourableAnswers(AssessmentQuestions), "wiscar_") == FavourableAnswers(WiscarQuestions)
  {
    PsychometricShape();
    TechnicalShape();
    WiscarShape();
    ThreeGroups(PsychometricQuestions, TechnicalQuestions, WiscarQuestions);
  }

  /** The favourable answer to a psychometric item scores 5. */
  lemma FavourablePsychometricScores(qs: seq<Question>)
    requires forall i :: 0 <= i < |qs| ==> BlockShape(qs[i], Psychometric)
    ensures forall i :: 0 <= i < |qs| ==> FavourableAnswers(qs)[i].score == Finite(5.0)
  {
  }

  /** The favourable answer to a keyed technical item scores five times its weight, between 7.5 and 10. */
  lemma {:induction false} FavourableTechnicalScores(qs: seq<Question>)
    requires forall i :: 0 <= i < |qs| ==> BlockShape(qs[i], Technical) && qs[i].id in CorrectAnswers
    ensures forall i :: 0 <= i < |qs| ==>
              FavourableAnswers(qs)[i].score.Finite? && 7.5 <= FavourableAnswers(qs)[i].score.value <= 10.0
  {
    forall i | 0 <= i < |qs|
      ensures FavourableAnswer(qs[i]).score.Finite? && 7.5 <= FavourableAnswer(qs[i]).score.value <= 10.0
    {
      FavourableKeyedScore(qs[i]);
    }
  }

  /** One keyed technical item: its favourable answer scores five times its weight. */
  lemma FavourableKeyedScore(q: Question)
    requires BlockShape(q, Technical) && q.id in CorrectAnswers
    ensures FavourableAnswer(q).score.Finite? && 7.5 <= FavourableAnswer(q).score.value <= 10.0
  {
    KeyedScore(q, CorrectAnswers[q.id]);
  }

  /** The favourable answer to a WISCAR item with the ordinal table scores four times its weight. */
  lemma FavourableWiscarScore(q: Question)
    requires BlockShape(q, Wiscar)
    requires q.id in WiscarScoring && WiscarScoring[q.id] == [4, 3, 2, 1]
    ensures FavourableAnswer(q).score == Finite(4.0 * q.weight)
  {
    OrdinalScore(q, 0);
  }

  /** A non-empty group whose scores all reach `lo` scores 100 once `lo * multiplier` reaches 100. */
  lemma GroupAtCeiling(group: seq<Answer>, lo: real, hi: real, multiplier: real)
    requires |group| > 0 && lo * multiplier >= 100.0 && multiplier > 0.0
    requires forall i :: 0 <= i < |group| ==> group[i].score.Finite? && lo <= group[i].score.value <= hi
    ensures Min(100.0, Scale(MeanScore(group), multiplier)) == Finite(100.0)
    ensures Min(100.0, Scale(IntendedMean(group), multiplier)) == Finite(100.0)
  {
    MeanWithin(group, lo, hi);
    assert MeanScore(group).value * multiplier >= lo * multiplier;
  }

  /** Answers whose non-empty `psych_` group scores 5 each get 100 there, as written and as intended. */
  lemma PsychometricGroupAtCeiling(answers: seq<Answer>, group: seq<Answer>)
    requires WithPrefix(answers, "psych_") == group && |group| > 0
    requires forall i :: 0 <= i < |group| ==> group[i].score.Finite? && 5.0 <= group[i].score.value <= 5.0
    ensures PsychometricScore(answers) == Finite(100.0) && IntendedPsychometricScore(answers) == Finite(100.0)
  {
    GroupAtCeiling(group, 5.0, 5.0, 20.0);
  }

  /** Answers whose non-empty `tech_` group scores between 7.5 and 10 each get 100 there, as written and as intended. */
  lemma TechnicalGroupAtCeiling(answers: seq<Answer>, group: seq<Answer>)
    requires WithPrefix(answers, "tech_") == group && |group| > 0
    requires forall i :: 0 <= i < |group| ==> group[i].score.Finite? && 7.5 <= group[i].score.value <= 10.0
    ensures TechnicalScore(answers) == Finite(100.0) && IntendedTechnicalScore(answers) == Finite(100.0)
  {
    GroupAtCeiling(group, 7.5, 10.0, 15.0);
  }

  /** Answers whose `psych_` group is the favourable answers to a non-empty psychometric block score 100 there. */
  lemma PsychometricAtCeiling(answers: seq<Answer>, block: seq<Question>)
    requires |block| > 0 && forall i :: 0 <= i < |block| ==> BlockShape(block[i], Psychometric)
    requires WithPrefix(answers, "psych_") == FavourableAnswers(block)
    ensures PsychometricScore(answers) == Finite(100.0) && IntendedPsychometricScore(answers) == Finite(100.0)
  {
    FavourablePsychometricScores(block);
    PsychometricGroupAtCeiling(answers, FavourableAnswers(block));
  }

  /** Answers whose `tech_` group is the favourable answers to a non-empty keyed technical block score 100 there. */
  lemma TechnicalAtCeiling(answers: seq<Answer>, block: seq<Question>)
    requires |block| > 0
    requires forall i :: 0 <= i < |block| ==> BlockShape(block[i], Technical) && block[i].id in CorrectAnswers
    requires WithPrefix(answers, "tech_") == FavourableAnswers(block)
    ensures TechnicalScore(answers) == Finite(100.0) && IntendedTechnicalScore(answers) == Finite(100.0)
  {
    FavourableTechnicalScores(block);
    TechnicalGroupAtCeiling(answers, FavourableAnswers(block));
  }

  /** Answering every psychometric item favourably gives the top psychometric score, as written and as intended. */
  lemma FavourablePsychometricScore()
    ensures PsychometricScore(FavourableAnswers(AssessmentQuestions)) == Finite(100.0)
    ensures IntendedPsychometricScore(FavourableAnswers(AssessmentQuestions)) == Finite(100.0)
  {
    FavourableGroups();
    PsychometricShape();
    PsychometricAtCeiling(FavourableAnswers(AssessmentQuestions), PsychometricQuestions);
  }

  /** Answering every technical item with its key gives the top technical score, as written and as intended. */
  lemma FavourableTechnicalScore()
    ensures TechnicalScore(FavourableAnswers(AssessmentQuestions)) == Finite(100.0)
    ensures IntendedTechnicalScore(FavourableAnswers(AssessmentQuestions)) == Finite(100.0)
  {
    FavourableGroups();
    TechnicalShape();
    TablesCoverBlocks();
    TechnicalAtCeiling(FavourableAnswers(AssessmentQuestions), TechnicalQuestions);
  }

  /** Each WISCAR item's subcategory is the one the catalog lookup finds for its identifier. */
  lemma WiscarSubcategories()
    ensures forall k :: 0 <= k < |WiscarQuestions| ==>
              SubcategoryIn(AssessmentQuestions, WiscarQuestions[k].id) == WiscarQuestions[k].subcategory
  {
    forall k | 0 <= k < |WiscarQuestions|
      ensures SubcategoryIn(AssessmentQuestions, WiscarQuestions[k].id) == WiscarQuestions[k].subcategory
    {
      CatalogAt(18 + k);
      FindCatalogQuestion(18 + k);
    }
  }

  /** Both `will` items weigh 2. */
  lemma WillWeights()
    ensures forall k :: 0 <= k < |WiscarQuestions| && WiscarQuestions[k].subcategory == "will" ==>
              WiscarQuestions[k].weight == 2.0
  {
  }

  /** The favourable answer to each WISCAR item scores four times its weight. */
  lemma WiscarFavourableScores()
    ensures forall k :: 0 <= k < |WiscarQuestions| ==>
              FavourableAnswer(WiscarQuestions[k]).score == Finite(4.0 * WiscarQuestions[k].weight)
  {
    WiscarShape();
    TablesCoverBlocks();
    forall k | 0 <= k < |WiscarQuestions|
      ensures FavourableAnswer(WiscarQuestions[k]).score == Finite(4.0 * WiscarQuestions[k].weight)
    {
      FavourableWiscarScore(WiscarQuestions[k]);
    }
  }

  /** Of the favourable answers to questions whose subcategory the lookup finds, a dimension keeps those to its own questions. */
  lemma {:induction false} InDimensionOfFavourable(catalog: seq<Question>, qs: seq<Question>, word: string)
    requires forall i :: 0 <= i < |qs| ==> SubcategoryIn(catalog, qs[i].id) == qs[i].subcategory
    ensures InDimension(catalog, FavourableAnswers(qs), word) == FavourableAnswers(BySubcategory(qs, word))
  {
    if qs != [] {
      var r := FavourableAnswers(qs);
      assert r[1..] == FavourableAnswers(qs[1..]);
      InDimensionOfFavourable(catalog, qs[1..], word);
      var head := if qs[0].subcategory == word then [qs[0]] else [];
      FavourableConcat(head, BySubcategory(qs[1..], word));
      assert FavourableAnswers(head) == if qs[0].subcategory == word then [r[0]] else [];
    }
  }

  /** There are as many questions of a subcategory as `CountSubcategory` counts. */
  lemma {:induction false} BySubcategoryCount(qs: seq<Question>, word: string)
    ensures |BySubcategory(qs, word)| == CountSubcategory(qs, word)
  {
    if qs != [] {
      BySubcategoryCount(qs[1..], word);
    }
  }

  /** The favourable answers to the questions of a subcategory score within the bounds each of them does. */
  lemma MembersWithin(qs: seq<Question>, word: string, lo: real, hi: real)
    requires forall i :: 0 <= i < |qs| && qs[i].subcategory == word ==>
               FavourableAnswer(qs[i]).score.Finite? && lo <= FavourableAnswer(qs[i]).score.value <= hi
    ensures var g := FavourableAnswers(BySubcategory(qs, word));
            forall i :: 0 <= i < |g| ==> g[i].score.Finite? && lo <= g[i].score.value <= hi
  {
    var members := BySubcategory(qs, word);
    forall i | 0 <= i < |members|
      ensures FavourableAnswer(members[i]).score.Finite? && lo <= FavourableAnswer(members[i]).score.value <= hi
    {
      assert members[i] in members;
      var j :| 0 <= j < |qs| && qs[j] == members[i];
    }
  }

  /**
   * A dimension over the favourable answers to `qs` holds one answer per
   * question of that subcategory, each scoring within the bounds those
   * questions' favourable answers do.
   */
  lemma DimensionMembers(catalog: seq<Question>, qs: seq<Question>, word: string, lo: real, hi: real)
    requires forall i :: 0 <= i < |qs| ==> SubcategoryIn(catalog, qs[i].id) == qs[i].subcategory
    requires forall i :: 0 <= i < |qs| && qs[i].subcategory == word ==>
               FavourableAnswer(qs[i]).score.Finite? && lo <= FavourableAnswer(qs[i]).score.value <= hi
    ensures var g := InDimension(catalog, FavourableAnswers(qs), word);
            && |g| == CountSubcategory(qs, word)
            && forall i :: 0 <= i < |g| ==> g[i].score.Finite? && lo <= g[i].score.value <= hi
  {
    InDimensionOfFavourable(catalog, qs, word);
    BySubcategoryCount(qs, word);
    MembersWithin(qs, word, lo, hi);
  }

  /** A sum of 16, halved and scaled by 12.5, is 100. */
  lemma PairClamp(sum: Number)
    requires sum == Finite(16.0)
    ensures Min(100.0, Scale(DivideBy(sum, 2.0), 12.5)) == Finite(100.0)
  {
  }

  /** A sum of at least 6, scaled by 25, is 100 once clamped. */
  lemma SingleClamp(sum: Number)
    requires sum.Finite? && sum.value >= 6.0
    ensures Min(100.0, Scale(DivideBy(sum, 1.0), 25.0)) == Finite(100.0)
  {
  }

  /** Two answers of 8 in a dimension, halved and scaled by 12.5, make 100. */
  lemma PairFromMembers(catalog: seq<Question>, w: seq<Answer>, word: string)
    requires var g := InDimension(catalog, w, word);
             |g| == 2 && forall i :: 0 <= i < |g| ==> g[i].score.Finite? && 8.0 <= g[i].score.value <= 8.0
    ensures IntendedDimensionScore(catalog, w, word, 2.0, 12.5) == Finite(100.0)
  {
    var g := InDimension(catalog, w, word);
    SumWithin(g, 8.0, 8.0);
    assert |g| as real * 8.0 == 16.0;
    PairClamp(SumScores(g));
  }

  /** One answer of at least 6, scaled by 25, makes 100 once clamped. */
  lemma SingleFromMembers(catalog: seq<Question>, w: seq<Answer>, word: string)
    requires var g := InDimension(catalog, w, word);
             |g| == 1 && forall i :: 0 <= i < |g| ==> g[i].score.Finite? && 6.0 <= g[i].score.value <= 8.0
    ensures IntendedDimensionScore(catalog, w, word, 1.0, 25.0) == Finite(100.0)
  {
    var g := InDimension(catalog, w, word);
    SumWithin(g, 6.0, 8.0);
    assert |g| as real * 6.0 == 6.0;
    SingleClamp(SumScores(g));
  }

  /** Two questions of a subcategory whose favourable answers score 8 give that dimension, halved and scaled by 12.5, 100. */
  lemma {:induction false} PairAtCeiling(catalog: seq<Question>, qs: seq<Question>, word: string)
    requires forall i :: 0 <= i < |qs| ==> SubcategoryIn(catalog, qs[i].id) == qs[i].subcategory
    requires CountSubcategory(qs, word) == 2
    requires forall i :: 0 <= i < |qs| && qs[i].subcategory == word ==> FavourableAnswer(qs[i]).score == Finite(8.0)
    ensures IntendedDimensionScore(catalog, FavourableAnswers(qs), word, 2.0, 12.5) == Finite(100.0)
  {
    DimensionMembers(catalog, qs, word, 8.0, 8.0);
    PairFromMembers(catalog, FavourableAnswers(qs), word);
  }

  /** One question of a subcategory whose favourable answer scores at least 6 gives that dimension 100. */
  lemma {:induction false} SingleAtCeiling(catalog: seq<Question>, qs: seq<Question>, word: string)
    requires forall i :: 0 <= i < |qs| ==> SubcategoryIn(catalog, qs[i].id) == qs[i].subcategory
    requires CountSubcategory(qs, word) == 1
    requires forall i :: 0 <= i < |qs| ==>
               FavourableAnswer(qs[i]).score.Finite? && 6.0 <= FavourableAnswer(qs[i]).score.value <= 8.0
    ensures IntendedDimensionScore(catalog, FavourableAnswers(qs), word, 1.0, 25.0) == Finite(100.0)
  {
    DimensionMembers(catalog, qs, word, 6.0, 8.0);
    SingleFromMembers(catalog, FavourableAnswers(qs), word);
  }

  /** The favourable answers to the WISCAR items score between 6 and 8, and exactly 8 on the `will` items. */
  lemma WiscarFavourableBounds()
    ensures forall i :: 0 <= i < |WiscarQuestions| ==>
              FavourableAnswer(WiscarQuestions[i]).score.Finite?
              && 6.0 <= FavourableAnswer(WiscarQuestions[i]).score.value <= 8.0
    ensures forall i :: 0 <= i < |WiscarQuestions| && WiscarQuestions[i].subcategory == "will" ==>
              FavourableAnswer(WiscarQuestions[i]).score == Finite(8.0)
  {
    WiscarShape();
    WiscarFavourableScores();
    WillWeights();
  }

  /** The `will` dimension of the favourable WISCAR answers is 100 once grouped by subcategory. */
  lemma {:induction false} WiscarWillAtCeiling(catalog: seq<Question>)
    requires forall k :: 0 <= k < |WiscarQuestions| ==>
               SubcategoryIn(catalog, WiscarQuestions[k].id) == WiscarQuestions[k].subcategory
    ensures IntendedDimensionScore(catalog, FavourableAnswers(WiscarQuestions), "will", 2.0, 12.5) == Finite(100.0)
  {
    WiscarDimensionCounts();
    WiscarFavourableBounds();
    PairAtCeiling(catalog, WiscarQuestions, "will");
  }

  /** A dimension with one WISCAR item scores 100 on the favourable WISCAR answers once grouped by subcategory. */
  lemma {:induction false} WiscarSingleAtCeiling(catalog: seq<Question>, word: string)
    requires forall k :: 0 <= k < |WiscarQuestions| ==>
               SubcategoryIn(catalog, WiscarQuestions[k].id) == WiscarQuestions[k].subcategory
    requires CountSubcategory(WiscarQuestions, word) == 1
    ensures IntendedDimensionScore(catalog, FavourableAnswers(WiscarQuestions), word, 1.0, 25.0) == Finite(100.0)
  {
    WiscarFavourableBounds();
    SingleAtCeiling(catalog, WiscarQuestions, word);
  }

  /** With a catalog lookup that finds each WISCAR item's subcategory, every dimension of the favourable WISCAR answers is 100. */
  lemma {:induction false} WiscarBlockAtCeiling(catalog: seq<Question>)
    requires forall k :: 0 <= k < |WiscarQuestions| ==>
               SubcategoryIn(catalog, WiscarQuestions[k].id) == WiscarQuestions[k].subcategory
    ensures var w := FavourableAnswers(WiscarQuestions);
            && IntendedDimensionScore(catalog, w, "will", 2.0, 12.5) == Finite(100.0)
            && IntendedDimensionScore(catalog, w, "interest", 1.0, 25.0) == Finite(100.0)
            && IntendedDimensionScore(catalog, w, "skill", 1.0, 25.0) == Finite(100.0)
            && IntendedDimensionScore(catalog, w, "cognitive", 1.0, 25.0) == Finite(100.0)
            && IntendedDimensionScore(catalog, w, "ability", 1.0, 25.0) == Finite(100.0)
            && IntendedDimensionScore(catalog, w, "reality", 1.0, 25.0) == Finite(100.0)
  {
    WiscarDimensionCounts();
    WiscarWillAtCeiling(catalog);
    WiscarSingleAtCeiling(catalog, "interest");
    WiscarSingleAtCeiling(catalog, "skill");
    WiscarSingleAtCeiling(catalog, "cognitive");
    WiscarSingleAtCeiling(catalog, "ability");
    WiscarSingleAtCeiling(catalog, "reality");
  }

  /** Answering every WISCAR item with its first option gives 100 in every dimension once grouped by subcategory. */
  lemma FavourableDimensions()
    ensures IntendedDimensionScores(FavourableAnswers(AssessmentQuestions))
            == WiscarScores(Finite(100.0), Finite(100.0), Finite(100.0), Finite(100.0), Finite(100.0), Finite(100.0))
  {
    FavourableGroups();
    WiscarSubcategories();
    WiscarBlockAtCeiling(AssessmentQuestions);
  }

  /**
   * Answering every catalog question most favourably scores 100 overall
   * under the intended scoring, and the tier is `yes`.
   */
  lemma IntendedFavourableOverall()
    ensures IntendedOverallScoreOf(FavourableAnswers(AssessmentQuestions)) == Finite(100.0)
    ensures Tier(IntendedOverallScoreOf(FavourableAnswers(AssessmentQuestions))) == Yes
  {
    FavourablePsychometricScore();
    FavourableTechnicalScore();
    FavourableDimensions();
  }

  /**
   * The favourable answers are an answer list a session can hold: one
   * answer to every catalog question, each scored as `addAnswer` scores it.
   */
  lemma FavourableAnswersRecordable()
    ensures WellFormedAnswers(FavourableAnswers(AssessmentQuestions))
    ensures AllAnswered(FavourableAnswers(AssessmentQuestions))
  {
    var r := FavourableAnswers(AssessmentQuestions);
    IdsUnique();
    forall k | 0 <= k < |r|
      ensures IsCatalogId(r[k].questionId)
      ensures r[k].score == AnswerScore(FindQuestion(AssessmentQuestions, r[k].questionId).value, r[k].value)
      ensures Answered(r, AssessmentQuestions[k].id)
    {
      FindCatalogQuestion(k);
    }
  }

  /** The identifiers of the favourable answers are the questions' identifiers. */
  lemma FavourableIds(qs: seq<Question>)
    requires forall i :: 0 <= i < |qs| ==> 'l' !in qs[i].id && 'n' !in qs[i].id
    ensures forall a :: a in FavourableAnswers(qs) ==> 'l' !in a.questionId && 'n' !in a.questionId
  {
  }

  /**
   * Answering every catalog question most favourably scores only 70 overall
   * as written: full psychometric and technical marks and 0 in every WISCAR
   * dimension, although the tier is still `yes`.
   */
  lemma AsWrittenFavourableOverall()
    ensures OverallScoreOf(FavourableAnswers(AssessmentQuestions)) == Finite(70.0)
    ensures Tier(OverallScoreOf(FavourableAnswers(AssessmentQuestions))) == Yes
  {
    forall k | 0 <= k < |AssessmentQuestions|
      ensures 'l' !in AssessmentQuestions[k].id && 'n' !in AssessmentQuestions[k].id
    {
      IdLetters(k);
    }
    FavourableIds(AssessmentQuestions);
    DimensionsZeroWithoutLetters(FavourableAnswers(AssessmentQuestions));
    FavourablePsychometricScore();
    FavourableTechnicalScore();
  }
}
