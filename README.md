# EIA Pathfinder assessment engine in Dafny

This project models the assessment engine of EIA Pathfinder, a career-fit questionnaire for Environmental Impact Assessors.

The engine lives in the hook `useAssessment` (src/hooks/useAssessment.ts) and reads the question catalog `assessmentQuestions` (src/data/questions.ts). The model covers:

- the 25-question catalog;
- the three sections obtained by filtering the catalog by category;
- the session state as a class (`Session.AssessmentSession`) with fields `currentSection`, `currentQuestion`, `answers` and `isComplete`;
- `addAnswer`, `nextQuestion` and `previousQuestion` as methods on that class;
- `currentQuestionData`, `getCurrentAnswer` and `progress` as functions of it;
- `calculateMultipleChoiceScore` and `calculateResults` as pure functions over the answer list.

Modules, one per concern:

- `Wrappers`: an `Option` type.
- `JsNumber`: a JavaScript number, either a finite real or `NaN`.
- `Strings`: `startsWith` and `includes`.
- `IdSets`: counting distinct identifiers.
- `Types`: the records of src/types/assessment.ts.
- `Questions`: the catalog and the lemmas that describe it.
- `Scoring`: how `addAnswer` scores one response.
- `AnswerLog`: the answer list and its upsert.
- `Navigation`: the sections and the cursor moves.
- `Session`: the stateful hook.
- `Results`: `calculateResults` as written.
- `Intended`: the corrected scoring described under "Findings".

Arithmetic is on mathematical reals. `NaN` is modelled explicitly, for two reasons:

- the source computes `0 / 0` for an empty answer group;
- it computes `undefined * weight` for a WISCAR option index outside the scoring table.

So the model returns what the code returns, not an invented value.

The section comments of the catalog file announce 20 psychometric, 15 technical and 15 WISCAR questions. The array literal holds 25 questions (10, 8 and 7), and the model follows the literal. The divisors 2 and 1 and the multipliers 12.5 and 25 of the WISCAR dimensions (src/hooks/useAssessment.ts:119-124) put each dimension at 100 when the most favourable answers are grouped by subcategory, and the psychometric and technical scores reach 100 in the same way, so the most favourable answers are evidently meant to score 100 overall. The code as written reaches only 70 (see "Findings").

## Model

| member | source | states |
|---|---|---|
| Questions.FindQuestion | src/hooks/useAssessment.ts:25 | `find` by identifier: absent exactly when no question has the identifier; a found question is the FIRST question in the list with that identifier |
| Questions.FindUnique | src/hooks/useAssessment.ts:25 | in a list with unique identifiers, `find` on a question's own identifier returns that question |
| Questions.FindCatalogQuestion | src/hooks/useAssessment.ts:25 | looking up a catalog question by its identifier finds that very question |
| Questions.CatalogIdIndex | src/hooks/useAssessment.ts:25 | an identifier that `find` locates belongs to a catalog position whose question `find` returns; that the position is the only one follows from Questions.IdsUnique |
| Questions.FilterCategory | src/hooks/useAssessment.ts:15-17 | the category filter keeps only questions of that category, every one of them, and never grows the list; how often each is kept is Questions.FilterCategoryCounts |
| Questions.FilterCategoryCounts | src/hooks/useAssessment.ts:15-17 | the category filter keeps each question of that category exactly as often as the list holds it, and no other question |
| Questions.BlockLayout | src/data/questions.ts:3-288 | the catalog literal has blocks of 10 psychometric, 8 technical and 7 WISCAR questions, each question of its block's shape |
| Questions.CatalogLayout | src/data/questions.ts:3-288 | 25 questions in all; positions 0-9 are psychometric, 10-17 technical, 18-24 WISCAR (the section comments claiming 20/15/15 are wrong) |
| Questions.CatalogAt | src/data/questions.ts:3-288 | the catalog question at each position is the matching block entry, of that block's category and shape |
| Questions.IdsUnique | src/data/questions.ts:5-288 | no two catalog questions share an identifier |
| Questions.PrefixMatchesCategory | src/data/questions.ts:5-288 | a catalog identifier starts with `psych_`, `tech_` or `wiscar_` exactly when its question has the matching category |
| Questions.QuestionShape | src/data/questions.ts:5-288 | likert items are exactly the psychometric ones, with weight 1 and no options; every other item is multiple-choice with 4 options and weight 1.5 or 2; every weight is positive |
| Questions.IdLetters | src/data/questions.ts:5-288 | no catalog identifier contains the letter `l` or `n` |
| Questions.WiscarDimensionCounts | src/data/questions.ts:191-288 | the WISCAR subcategory tags name `will` twice (`wiscar_1`, `wiscar_7`) and the other five dimensions once each |
| Questions.SectionsOf | src/hooks/useAssessment.ts:14-18 | filtering three concatenated single-category blocks by category recovers each block |
| Questions.SectionsAreBlocks | src/hooks/useAssessment.ts:14-18 | the three section filters of the catalog yield exactly its three blocks, in catalog order |
| Scoring.LikertScoreIsValue | src/hooks/useAssessment.ts:29-30 | a psychometric likert answer scores `value * 1`, its raw value |
| Scoring.UnkeyedScore | src/hooks/useAssessment.ts:80 | the fallback scoring rule, stated as a case of its own: a multiple-choice item in neither table scores `index * weight` |
| Scoring.BooleanScoresZero | src/hooks/useAssessment.ts:28-34 | the boolean scoring rule, stated as a case of its own: a boolean item keeps the initial score 0 |
| Scoring.MultipleChoiceScore | src/hooks/useAssessment.ts:50-81 | `calculateMultipleChoiceScore` is NaN only for a WISCAR identifier with an index off its table; case by case see Scoring.KeyedScore, Scoring.OrdinalScore and Scoring.UnkeyedScore |
| Scoring.AnswerScore | src/hooks/useAssessment.ts:28-34 | the score `addAnswer` computes is NaN only for a multiple-choice item with an ordinal table; its bounds on offered values are Scoring.OfferedScoreBounds |
| Scoring.TablesCoverBlocks | src/hooks/useAssessment.ts:52-72 | every technical identifier has a key (1 for the numerical items `tech_2` and `tech_8`, 0 otherwise); every WISCAR identifier has the table 4, 3, 2, 1 |
| Scoring.KeyedScore | src/hooks/useAssessment.ts:74-75 | the keyed scoring rule, stated as a case of its own: a `tech_` item with a key scores `5 * weight` on the key and `1 * weight` on any other index |
| Scoring.OrdinalScore | src/hooks/useAssessment.ts:76-77 | a `wiscar_` item with the table 4, 3, 2, 1 scores `(4 - index) * weight`, and NaN off the table |
| Scoring.TechnicalScoreByKey | src/hooks/useAssessment.ts:52-75 | each technical item's key lies within its four options, and the item scores five times its weight on the key and its weight otherwise |
| Scoring.WiscarScoreIsOrdinal | src/hooks/useAssessment.ts:64-77 | each WISCAR item scores `(4 - index) * weight` on its four options and NaN on any other index |
| Scoring.TablesCoverCatalog | src/hooks/useAssessment.ts:52-80 | the key table holds exactly the technical identifiers and the ordinal table exactly the WISCAR ones, so the `index * weight` fallback never applies to a catalog question |
| Scoring.OfferedScoreBounds | src/hooks/useAssessment.ts:28-34 | every value the questionnaire offers on a catalog question scores a finite number between the weight and five times the weight |
| Scoring.PsychometricBounds | src/hooks/useAssessment.ts:29-30 | the same bound for an offered likert value 1-5 on a psychometric item |
| Scoring.TechnicalBounds | src/hooks/useAssessment.ts:74-75 | the same bound for any offered option of a technical item |
| Scoring.WiscarBounds | src/hooks/useAssessment.ts:76-77 | the same bound for any offered option of a WISCAR item |
| AnswerLog.FindAnswer | src/hooks/useAssessment.ts:185 | `answers.find` by question: absent exactly when no answer has the identifier; a found answer is the FIRST answer in the list with that identifier |
| AnswerLog.FindAnswerIndex | src/hooks/useAssessment.ts:37 | `findIndex`: -1 exactly when no answer has the identifier, else the first index with it |
| AnswerLog.Upsert | src/hooks/useAssessment.ts:36-45 | the reference update always contains the new answer and grows the list by at most one; its meaning is given by the Upsert lemmas below |
| AnswerLog.UpsertReplaces | src/hooks/useAssessment.ts:40-42 | with an earlier answer to the question at its first index `k`, recording overwrites position `k` and nothing else |
| AnswerLog.UpsertAppends | src/hooks/useAssessment.ts:43-44 | with no earlier answer to the question, recording appends the answer at the end |
| AnswerLog.UpsertFind | src/hooks/useAssessment.ts:36-45 | after recording, the answer to that question is the new one and every other question keeps its answer |
| AnswerLog.UpsertLength | src/hooks/useAssessment.ts:36-45 | recording keeps the length when the question was answered and adds one otherwise |
| AnswerLog.UpsertMembers | src/hooks/useAssessment.ts:36-45 | the recorded list holds the new answer and exactly the old answers to other questions |
| AnswerLog.UpsertKeepsDistinct | src/hooks/useAssessment.ts:36-45 | recording keeps at most one answer per question |
| AnswerLog.UpsertIdempotent | src/hooks/useAssessment.ts:36-45 | recording the same answer twice equals recording it once |
| AnswerLog.CountWithin | src/hooks/useAssessment.ts:22 | answers with distinct identifiers from a finite set number at most that set's size, and exactly its size when every identifier is answered |
| Session.RecordAnswer | src/hooks/useAssessment.ts:24-47 | the answer list after `addAnswer`; described by Session.RecordKeepsWellFormed, Session.RecordFind and Session.RecordLength, and performed in place by Session.AssessmentSession.AddAnswer |
| Session.RecordKeepsWellFormed | src/hooks/useAssessment.ts:24-47 | `addAnswer` keeps the answer list well formed: catalog questions only, one answer each, each scored as `addAnswer` scores it |
| Session.RecordFind | src/hooks/useAssessment.ts:24-47 | after `addAnswer` the answer to a catalog question is the newly scored answer and every other question keeps its answer; an unknown identifier changes nothing |
| Session.RecordLength | src/hooks/useAssessment.ts:24-47 | `addAnswer` lengthens the list by one exactly when a catalog question gets its first answer, so `progress` rises only then |
| Session.AnsweredCount | src/hooks/useAssessment.ts:22 | a well-formed answer list is never longer than the catalog and is exactly as long when every catalog question is answered |
| Session.AssessmentSession.constructor | src/hooks/useAssessment.ts:6-12 | the initial state: section 0, question 0, no answers, not complete; the session invariant holds |
| Session.AssessmentSession.AddAnswer | src/hooks/useAssessment.ts:24-48 | looks up the question, scores the value, then overwrites at the `findIndex` position or appends; the answers become the reference upsert, the cursor is unchanged, the invariant is kept |
| Session.AssessmentSession.NextQuestion | src/hooks/useAssessment.ts:83-95 | the cursor becomes `Advance` of the old cursor, the answers are unchanged, the invariant (cursor in bounds) is kept |
| Session.AssessmentSession.PreviousQuestion | src/hooks/useAssessment.ts:97-108 | the cursor becomes `Retreat` of the old cursor, the answers are unchanged, the invariant is kept |
| Session.AssessmentSession.CurrentQuestionData | src/hooks/useAssessment.ts:20-21 | defined exactly when the cursor is in bounds, and then the catalog question at the cursor's position |
| Session.AssessmentSession.GetCurrentAnswer | src/hooks/useAssessment.ts:183-186 | the recorded answer to the question shown; absent exactly when no question is shown or it has no answer |
| Session.AssessmentSession.Progress | src/hooks/useAssessment.ts:22 | `answers.length / 25 * 100`: never negative, and for well-formed answers at most 100 and equal to 100 exactly when every question is answered |
| Navigation.Advance | src/hooks/useAssessment.ts:83-95 | `nextQuestion` never moves to an earlier section or off the last one and never clears the flag; its steps are Navigation.AdvanceSteps and Navigation.TraversalFromStart |
| Navigation.Retreat | src/hooks/useAssessment.ts:97-108 | `previousQuestion` never moves to a later section and never touches the flag; its steps are Navigation.RetreatSteps |
| Navigation.CurrentQuestion | src/hooks/useAssessment.ts:20-21 | `sections[s]?.questions[q]` is defined exactly when the cursor is in bounds |
| Navigation.CurrentIsAtPosition | src/hooks/useAssessment.ts:20-21 | the question shown is the one at the cursor's position in the concatenated sections |
| Navigation.MovesKeepInBounds | src/hooks/useAssessment.ts:83-108 | for non-empty sections, both moves keep the cursor on an existing question |
| Navigation.AdvanceSteps | src/hooks/useAssessment.ts:83-95 | before the last question `nextQuestion` moves one position forward and keeps the flag; on the last question it only sets `isComplete` |
| Navigation.RetreatSteps | src/hooks/useAssessment.ts:97-108 | `previousQuestion` never changes the flag, moves one position back after the first question and changes nothing on it |
| Navigation.MovesUndoEachOther | src/hooks/useAssessment.ts:83-108 | `previousQuestion` undoes `nextQuestion` before the last question, and `nextQuestion` undoes `previousQuestion` after the first |
| Navigation.AdvanceTimes | src/hooks/useAssessment.ts:83-95 | any number of presses of next keeps the cursor in bounds |
| Navigation.TraversalFromStart | src/hooks/useAssessment.ts:83-95 | from the start, `n` presses reach position `min(n, N - 1)` and the flag is set exactly from the `N`-th press on |
| Navigation.SectionBlocks | src/hooks/useAssessment.ts:14-18 | there are three sections, holding the psychometric, technical and WISCAR blocks |
| Navigation.SectionsNonEmpty | src/hooks/useAssessment.ts:14-18 | no section is empty |
| Navigation.SectionsCoverCatalog | src/hooks/useAssessment.ts:14-18 | the sections together are the whole catalog, in order |
| Navigation.SectionContents | src/hooks/useAssessment.ts:14-18 | the three sections are the three blocks, none empty, together the whole catalog |
| Navigation.CatalogCursor | src/hooks/useAssessment.ts:20-21 | on the catalog's sections an in-bounds cursor shows the catalog question at its position |
| Navigation.CatalogTraversal | src/hooks/useAssessment.ts:83-95 | from the start, 24 presses show the last of the 25 questions with the flag clear, and the 25th press sets the flag |
| Results.WithPrefix | src/hooks/useAssessment.ts:111-113 | the prefix filter keeps only answers whose identifier starts with the prefix, every one of them, and never grows the list; how often each is kept is Results.WithPrefixCounts |
| Results.WithPrefixCounts | src/hooks/useAssessment.ts:111-113 | the prefix filter keeps each answer with that prefix exactly as often as the list holds it, and no other answer |
| Results.Including | src/hooks/useAssessment.ts:119-124 | the `includes` filter keeps only answers whose identifier contains the word, every one of them, and never grows the list; how often each is kept is Results.IncludingCounts |
| Results.IncludingCounts | src/hooks/useAssessment.ts:119-124 | the `includes` filter keeps each answer containing the word exactly as often as the list holds it, and no other answer |
| Strings.IncludesIffOccurs | src/hooks/useAssessment.ts:119-124 | `includes` holds exactly when the word occurs at some offset |
| Strings.MissingCharExcludes | src/hooks/useAssessment.ts:119-124 | a string lacking one of the word's characters does not include the word |
| JsNumber.MinIsClamped | src/hooks/useAssessment.ts:115-124 | `Math.min(bound, x)` is at most the bound, NaN exactly when `x` is, and `x` when `x` is below the bound |
| Results.SumScores | src/hooks/useAssessment.ts:115-124 | the left-to-right `reduce` sum; its bounds are Results.SumWithin and its NaN propagation Results.SumPropagatesNaN |
| Results.MeanScore | src/hooks/useAssessment.ts:115-116 | the group mean, NaN on an empty group; its bounds are Results.MeanWithin and the empty case Results.EmptyGroupIsNaN |
| Results.PsychometricScore | src/hooks/useAssessment.ts:115 | the clamped `psych_` mean times 20 is at most 100 (or NaN) |
| Results.TechnicalScore | src/hooks/useAssessment.ts:116 | the clamped `tech_` mean times 15 is at most 100 (or NaN) |
| Results.DimensionScore | src/hooks/useAssessment.ts:119-124 | a clamped dimension score is at most 100 (or NaN) |
| Results.WiscarDimensionScores | src/hooks/useAssessment.ts:118-125 | each of the six clamped dimension scores is at most 100 (or NaN) |
| Results.WiscarAverage | src/hooks/useAssessment.ts:127 | the mean of six scores each at most 100 is at most 100, and it is finite exactly when all six are |
| Results.OverallScore | src/hooks/useAssessment.ts:128 | the 0.3/0.4/0.3 blend of scores each at most 100 is at most 100, and it is finite exactly when all three are |
| Results.OverallScoreOf | src/hooks/useAssessment.ts:110-128 | the overall score of any answer list is at most 100 (or NaN) |
| Results.Tier | src/hooks/useAssessment.ts:135-160 | `yes` exactly at 70 or more, `maybe` exactly from 40 below 70, `no` exactly below 40 or for NaN |
| Results.TierMonotone | src/hooks/useAssessment.ts:135-160 | a higher overall score never gets a lower tier |
| Results.SuggestedPath | src/hooks/useAssessment.ts:138-167 | each tier's learning path has four steps |
| Results.Feedback | src/hooks/useAssessment.ts:131-170 | the feedback sentence of each tier; see Results.TierTexts |
| Results.TierTexts | src/hooks/useAssessment.ts:135-168 | two tiers get the same feedback sentence, and the same learning path, exactly when they are the same tier |
| Results.SkillGaps | src/hooks/useAssessment.ts:144-168 | `yes`: the technical gap exactly when the technical score is below 70; `maybe`: an entry for each of psychometric, technical and WISCAR average exactly when it is below 50, at most three, in that order; `no`: the one fixed gap |
| Results.Summarise | src/hooks/useAssessment.ts:127-180 | the result record carries the group scores, their 0.3/0.4/0.3 blend (at most 100), the tier of that blend, and that tier's feedback sentence, four-step path and skill gaps, including the `Professional readiness` entry exactly when a `maybe` result's WISCAR average is below 50 |
| Results.CalculateResults | src/hooks/useAssessment.ts:110-181 | every field of the result: the clamped group scores and dimensions of the answers, the blend, the tier with its thresholds, and the tier's feedback, path and skill gaps (the readiness gap judged on the WISCAR average of the result's own dimensions) |
| Results.SumWithin | src/hooks/useAssessment.ts:115-124 | a `reduce` sum of finite scores each within `[lo, hi]` is finite and within `[n * lo, n * hi]` |
| Results.SumPropagatesNaN | src/hooks/useAssessment.ts:115-127 | one NaN score makes the whole sum NaN |
| Results.MeanWithin | src/hooks/useAssessment.ts:115-116 | the mean of a non-empty group of finite scores within `[lo, hi]` is finite and within `[lo, hi]` |
| Results.EmptyGroupIsNaN | src/hooks/useAssessment.ts:115-116 | an empty psychometric or technical group gives a NaN score, a NaN overall score and the tier `no` |
| Results.NoAnswersResult | src/hooks/useAssessment.ts:110-128 | with no answers the psychometric, technical and overall scores are NaN, every dimension is 0 and the tier is `no` |
| Results.NoDimensionWithoutLetters | src/hooks/useAssessment.ts:119-124 | every dimension name contains `l` or `n`, so an identifier without both letters includes none |
| Results.CatalogIdNamesNoDimension | src/hooks/useAssessment.ts:119-124 | no catalog identifier includes a dimension name |
| Results.UnmatchedDimensionIsZero | src/hooks/useAssessment.ts:119-124 | a dimension over answers none of which includes its name scores 0 |
| Results.LetterlessDimensionIsZero | src/hooks/useAssessment.ts:119-124 | a dimension over answers whose identifiers lack `l` and `n` scores 0 |
| Results.DimensionsZeroWithoutLetters | src/hooks/useAssessment.ts:118-125 | over such answers all six dimensions score 0 |
| Results.CatalogDimensionsZero | src/hooks/useAssessment.ts:118-125 | for answers to catalog questions all six WISCAR dimensions score 0 |
| Results.ZeroDimensionsCapOverall | src/hooks/useAssessment.ts:127-128 | with every dimension 0 the overall score is `0.3 * p + 0.4 * t`, at most 70 |
| Results.OverallAtMost70 | src/hooks/useAssessment.ts:118-128 | for answers to catalog questions the overall score is at most 70 (or NaN) |
| Results.YesNeedsFullMarks | src/hooks/useAssessment.ts:128-136 | for answers to catalog questions the tier is `yes` only with psychometric and technical scores of exactly 100, and the overall score is then exactly 70, in doubles as well as in real arithmetic |
| Intended.IntendedMean | src/hooks/useAssessment.ts:115-116 | the corrected mean: 0 for an empty group, the code's mean otherwise, and NaN only when some score in the group is NaN |
| Intended.IntendedPsychometricScore | src/hooks/useAssessment.ts:115 | the corrected psychometric score is at most 100 (or NaN) |
| Intended.IntendedTechnicalScore | src/hooks/useAssessment.ts:116 | the corrected technical score is at most 100 (or NaN) |
| Intended.IntendedAgreesOnNonEmptyGroups | src/hooks/useAssessment.ts:115-116 | for non-empty groups the corrected psychometric and technical scores equal the code's |
| Intended.IntendedNoAnswers | src/hooks/useAssessment.ts:110-128 | with no answers every corrected score is 0 and the tier is `no` |
| Intended.InDimension | src/hooks/useAssessment.ts:119-124 | the corrected dimension filter keeps only answers whose question has that subcategory, every one of them, and never grows the list; how often each is kept is Intended.InDimensionCounts |
| Intended.InDimensionCounts | src/hooks/useAssessment.ts:119-124 | the corrected dimension filter keeps each answer of that subcategory exactly as often as the list holds it, and no other answer |
| Intended.IntendedDimensionScore | src/hooks/useAssessment.ts:119-124 | a corrected dimension score is at most 100 (or NaN) |
| Intended.IntendedDimensionScores | src/hooks/useAssessment.ts:118-125 | each of the six corrected dimension scores, grouped by subcategory with the source's divisors and multipliers, is at most 100 (or NaN) |
| Intended.IntendedOverallScoreOf | src/hooks/useAssessment.ts:127-128 | the corrected overall score is at most 100 (or NaN) |
| Intended.FavourableAnswer | src/hooks/useAssessment.ts:36 | the most favourable response to a question, recorded with the score `addAnswer` gives it, answers that question |
| Intended.FavourableAnswers | src/hooks/useAssessment.ts:24-47 | one favourable answer per question, in question order |
| Intended.FavourableAnswersRecordable | src/hooks/useAssessment.ts:24-47 | the favourable answers to the catalog form a well-formed answer list that answers every question |
| Intended.FavourableGroups | src/hooks/useAssessment.ts:111-113 | the prefix filters split the favourable catalog answers into the three blocks' answers |
| Intended.FavourablePsychometricScore | src/hooks/useAssessment.ts:115 | answering every psychometric item with 5 gives a psychometric score of 100, as written and as corrected |
| Intended.FavourableTechnicalScore | src/hooks/useAssessment.ts:116 | answering every technical item with its key gives a technical score of 100, as written and as corrected |
| Intended.WiscarSubcategories | src/data/questions.ts:191-288 | the catalog lookup finds each WISCAR item's own subcategory |
| Intended.WiscarBlockAtCeiling | src/hooks/useAssessment.ts:118-125 | grouped by subcategory, the favourable WISCAR answers score 100 in each of the six dimensions |
| Intended.FavourableDimensions | src/hooks/useAssessment.ts:118-125 | the corrected dimension scores of the favourable catalog answers are 100 six times |
| Intended.IntendedFavourableOverall | src/hooks/useAssessment.ts:127-136 | the favourable catalog answers score 100 overall under the corrected scoring, with the tier `yes` |
| Intended.AsWrittenFavourableOverall | src/hooks/useAssessment.ts:118-136 | the favourable catalog answers score exactly 70 overall as written, in doubles as well as in real arithmetic, still with the tier `yes` |

## Left out

- Prompt texts, option wording and section comments of the catalog are display text. A question keeps only its number of options.
  - For that reason the correctness of the answer keys against the option texts of `tech_2` and `tech_8` (25% and 30%) is not stated.
- Answer values of type string (`value as number` on a string) are not modelled. An answer value is an integer.
- Scores are mathematical reals. Floating-point rounding of products such as `1.5 * 5` and sums is not modelled. `NaN` is modelled exactly.
- The catalog literal (`Questions.AssessmentQuestions`) and the section list (`Navigation.Sections`) are constants, not functions; their contents are stated by Questions.BlockLayout, Questions.CatalogLayout, Questions.CatalogAt and Navigation.SectionContents.
- `timeStarted: new Date()` reads the wall clock and is not modelled.
- React `useState`: each operation is one atomic update of the session object.
  - `setState` batching and stale closures over `state` are not modelled.
  - The returned `state`, `sections` and `currentSectionData` values are the class fields and `Navigation.Sections`.
- `Navigation.Retreat` and the session methods require non-empty sections. The catalog's sections are non-empty (`Navigation.SectionsNonEmpty`), and the session invariant records this.
- The pages, routing, the likert widget and printing (src/pages, src/components) are presentational.
  - The likert widget's values 1 to 5 appear only as `Scoring.Offered`, in the bounds lemmas. `addAnswer` itself scores any integer.
- Boolean questions: the catalog has none and no page renders one, so `Scoring.Offered` offers no value for them; `Scoring.BooleanScoresZero` covers how `addAnswer` would score one.

## Findings

| source | as written | input that shows it | evidently intended | confidence | as-written member | corrected member |
|---|---|---|---|---|---|---|
| src/hooks/useAssessment.ts:119-124 | each WISCAR dimension keeps the answers whose question IDENTIFIER includes the dimension name; catalog identifiers are `wiscar_1` to `wiscar_7`, so every dimension is 0 and the overall score never exceeds 70 | the most favourable answer to all 25 questions (likert 5, every technical key, the first WISCAR option) scores 70 overall | group by the question's SUBCATEGORY (`will` twice, the others once, matching the divisors 2 and 1), so the same answers score 100 | not executed | Results.OverallAtMost70, Intended.AsWrittenFavourableOverall | Intended.IntendedFavourableOverall |
| src/hooks/useAssessment.ts:115-116 | an empty psychometric or technical group divides 0 by 0, so the score is NaN and the overall score is NaN | no answers at all | an empty group scores 0 | not executed | Results.NoAnswersResult, Results.EmptyGroupIsNaN | Intended.IntendedNoAnswers |
