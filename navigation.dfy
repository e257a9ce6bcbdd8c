/**
 * The three sections of the questionnaire and the cursor that
 * `nextQuestion` and `previousQuestion` move through them
 * (src/hooks/useAssessment.ts).  A cursor is a section index, a question
 * index within that section and the completion flag.  The two moves are
 * stated for any list of non-empty sections, with the catalog position of a
 * cursor as their reference: a move is one step along the concatenation of
 * the sections.  The session's methods are proved to perform exactly these
 * transitions on the catalog's three sections.
 */
module Navigation {
  import opened Wrappers
  import opened Types
  import opened Questions

  datatype Section = Section(name: string, questions: seq<Question>)

  /** `sections`: the catalog filtered by category, one section per category. */
  const Sections: seq<Section> := [
    Section("Psychometric Assessment", FilterCategory(AssessmentQuestions, Psychometric)),
    Section("Technical Knowledge", FilterCategory(AssessmentQuestions, Technical)),
    Section("WISCAR Analysis", FilterCategory(AssessmentQuestions, Wiscar))
  ]

  /** `currentSection`, `currentQuestion` and `isComplete`. */
  datatype Cursor = Cursor(section: nat, question: nat, complete: bool)

  /** The cursor of a fresh session. */
  const Start: Cursor := Cursor(0, 0, false)

  /** Every section holds at least one question. */
  predicate NonEmpty(sections: seq<Section>)
  {
    forall s :: 0 <= s < |sections| ==> |sections[s].questions| > 0
  }

  /** The cursor names an existing section and an existing question of it. */
  predicate InBounds(sections: seq<Section>, c: Cursor)
  {
    c.section < |sections| && c.question < |sections[c.section].questions|
  }

  /**
   * `nextQuestion`: the next question of the section, else the first question
   * of the next section, else (on the last question) the completion flag.
   */
  function Advance(sections: seq<Section>, c: Cursor): (r: Cursor)
    requires c.section < |sections|
    ensures c.section <= r.section < |sections|
    ensures c.complete ==> r.complete
  {
    if c.question < |sections[c.section].questions| - 1 then c.(question := c.question + 1)
    else if c.section < |sections| - 1 then c.(section := c.section + 1, question := 0)
    else c.(complete := true)
  }

  /**
   * `previousQuestion`: the previous question of the section, else the last
   * question of the previous section, else (on the first question) nothing.
   */
  function Retreat(sections: seq<Section>, c: Cursor): (r: Cursor)
    requires NonEmpty(sections) && c.section < |sections|
    ensures r.section <= c.section
    ensures r.complete == c.complete
  {
    if c.question > 0 then c.(question := c.question - 1)
    else if c.section > 0 then
      c.(section := c.section - 1, question := |sections[c.section - 1].questions| - 1)
    else c
  }

  /** The questions of the sections before section `s`, in order. */
  function QuestionsBefore(sections: seq<Section>, s: nat): seq<Question>
    requires s <= |sections|
  {
    if s == 0 then [] else QuestionsBefore(sections, s - 1) + sections[s - 1].questions
  }

  /** All questions of all sections, in order. */
  function AllQuestions(sections: seq<Section>): seq<Question>
  {
    QuestionsBefore(sections, |sections|)
  }

  /** The position of the cursor's question in the concatenation of the sections. */
  function Position(sections: seq<Section>, c: Cursor): nat
    requires c.section < |sections|
  {
    |QuestionsBefore(sections, c.section)| + c.question
  }

  /** `currentQuestionData`: `sections[currentSection]?.questions[currentQuestion]`, undefined off the end. */
  function CurrentQuestion(sections: seq<Section>, c: Cursor): (r: Option<Question>)
    ensures r.Some? <==> InBounds(sections, c)
  {
    if InBounds(sections, c) then Some(sections[c.section].questions[c.question]) else None
  }

  /** Later sections start later. */
  lemma {:induction false} StartsGrow(sections: seq<Section>, s: nat, t: nat)
    requires s <= t <= |sections|
    ensures |QuestionsBefore(sections, s)| <= |QuestionsBefore(sections, t)|
    ensures s < t ==> |QuestionsBefore(sections, s + 1)| <= |QuestionsBefore(sections, t)|
  {
    if s < t {
      StartsGrow(sections, s, t - 1);
    }
  }

  /** The concatenation, read at the cursor's position, is the cursor's question. */
  lemma {:induction false} PositionIndexes(sections: seq<Section>, c: Cursor, t: nat)
    requires InBounds(sections, c) && c.section < t <= |sections|
    ensures Position(sections, c) < |QuestionsBefore(sections, t)|
    ensures QuestionsBefore(sections, t)[Position(sections, c)] == sections[c.section].questions[c.question]
  {
    if t == c.section + 1 {
      var before := QuestionsBefore(sections, c.section);
      assert QuestionsBefore(sections, t) == before + sections[c.section].questions;
    } else {
      PositionIndexes(sections, c, t - 1);
      var prefix := QuestionsBefore(sections, t - 1);
      assert QuestionsBefore(sections, t) == prefix + sections[t - 1].questions;
      assert (prefix + sections[t - 1].questions)[Position(sections, c)] == prefix[Position(sections, c)];
    }
  }

  /** The cursor's position lies inside the concatenation, at the cursor's question. */
  lemma CurrentIsAtPosition(sections: seq<Section>, c: Cursor)
    requires InBounds(sections, c)
    ensures Position(sections, c) < |AllQuestions(sections)|
    ensures CurrentQuestion(sections, c) == Some(AllQuestions(sections)[Position(sections, c)])
  {
    PositionIndexes(sections, c, |sections|);
  }

  /** Both moves keep the cursor on an existing question. */
  lemma MovesKeepInBounds(sections: seq<Section>, c: Cursor)
    requires NonEmpty(sections) && InBounds(sections, c)
    ensures InBounds(sections, Advance(sections, c)) && InBounds(sections, Retreat(sections, c))
  {
  }

  /**
   * Before the last question `nextQuestion` moves one position forward and
   * leaves the flag alone; on the last question it only sets the flag.
   */
  lemma AdvanceSteps(sections: seq<Section>, c: Cursor)
    requires NonEmpty(sections) && InBounds(sections, c)
    ensures Position(sections, c) < |AllQuestions(sections)|
    ensures Position(sections, c) < |AllQuestions(sections)| - 1 ==>
              Position(sections, Advance(sections, c)) == Position(sections, c) + 1
              && Advance(sections, c).complete == c.complete
    ensures Position(sections, c) == |AllQuestions(sections)| - 1 ==> Advance(sections, c) == c.(complete := true)
  {
    CurrentIsAtPosition(sections, c);
    StartsGrow(sections, c.section, |sections|);
    if c.section < |sections| - 1 {
      StartsGrow(sections, c.section + 1, |sections|);
      assert |QuestionsBefore(sections, c.section + 2)| <= |AllQuestions(sections)|;
    }
  }

  /**
   * After the first question `previousQuestion` moves one position back; on
   * the first question it changes nothing; it never touches the flag.
   */
  lemma RetreatSteps(sections: seq<Section>, c: Cursor)
    requires NonEmpty(sections) && InBounds(sections, c)
    ensures Retreat(sections, c).complete == c.complete
    ensures Position(sections, c) > 0 ==> Position(sections, Retreat(sections, c)) == Position(sections, c) - 1
    ensures Position(sections, c) == 0 ==> Retreat(sections, c) == c
  {
    if c.question == 0 && c.section > 0 {
      assert |QuestionsBefore(sections, c.section)|
             == |QuestionsBefore(sections, c.section - 1)| + |sections[c.section - 1].questions|;
    }
  }

  /** Two in-bounds cursors at the same position are the same cursor, up to the flag. */
  lemma PositionInjective(sections: seq<Section>, c: Cursor, d: Cursor)
    requires InBounds(sections, c) && InBounds(sections, d) && Position(sections, c) == Position(sections, d)
    ensures c.section == d.section && c.question == d.question
  {
    if c.section < d.section {
      StartsGrow(sections, c.section, d.section);
    } else if d.section < c.section {
      StartsGrow(sections, d.section, c.section);
    }
  }

  /** `previousQuestion` undoes `nextQuestion` before the last question, and the other way round after the first. */
  lemma MovesUndoEachOther(sections: seq<Section>, c: Cursor)
    requires NonEmpty(sections) && InBounds(sections, c)
    ensures Position(sections, c) < |AllQuestions(sections)| - 1 ==>
              InBounds(sections, Advance(sections, c)) && Retreat(sections, Advance(sections, c)) == c
    ensures Position(sections, c) > 0 ==>
              InBounds(sections, Retreat(sections, c)) && Advance(sections, Retreat(sections, c)) == c
  {
    MovesKeepInBounds(sections, c);
    AdvanceSteps(sections, c);
    RetreatSteps(sections, c);
    if Position(sections, c) < |AllQuestions(sections)| - 1 {
      var d := Advance(sections, c);
      MovesKeepInBounds(sections, d);
      RetreatSteps(sections, d);
      PositionInjective(sections, Retreat(sections, d), c);
    }
    if Position(sections, c) > 0 {
      var d := Retreat(sections, c);
      MovesKeepInBounds(sections, d);
      AdvanceSteps(sections, d);
      PositionInjective(sections, Advance(sections, d), c);
    }
  }

  /** `n` presses of the next button from `c`. */
  function AdvanceTimes(sections: seq<Section>, c: Cursor, n: nat): (r: Cursor)
    requires NonEmpty(sections) && InBounds(sections, c)
    ensures InBounds(sections, r)
    decreases n
  {
    if n == 0 then c
    else
      MovesKeepInBounds(sections, c);
      AdvanceTimes(sections, Advance(sections, c), n - 1)
  }

  /** The `n + 1`-th press is one more press after the first `n`. */
  lemma {:induction false} AdvanceAfter(sections: seq<Section>, c: Cursor, n: nat)
    requires NonEmpty(sections) && InBounds(sections, c)
    ensures AdvanceTimes(sections, c, n + 1) == Advance(sections, AdvanceTimes(sections, c, n))
    decreases n
  {
    if n > 0 {
      MovesKeepInBounds(sections, c);
      AdvanceAfter(sections, Advance(sections, c), n - 1);
    }
  }

  /**
   * From the start, `n` presses reach position `min(n, N - 1)` of the `N`
   * questions, and the flag is set exactly from the `N`-th press on: every
   * question is shown once, in order, before the questionnaire completes.
   */
  lemma {:induction false} TraversalFromStart(sections: seq<Section>, n: nat)
    requires NonEmpty(sections) && |sections| > 0
    ensures InBounds(sections, Start)
    ensures var total := |AllQuestions(sections)|;
            && Position(sections, AdvanceTimes(sections, Start, n)) == (if n < total then n else total - 1)
            && (AdvanceTimes(sections, Start, n).complete <==> n >= total)
  {
    assert Position(sections, Start) == 0;
    if n > 0 {
      TraversalFromStart(sections, n - 1);
      AdvanceAfter(sections, Start, n - 1);
      AdvanceSteps(sections, AdvanceTimes(sections, Start, n - 1));
    }
  }

  /** Three sections together hold their three question lists in order. */
  lemma AllOfThree(sections: seq<Section>)
    requires |sections| == 3
    ensures AllQuestions(sections) == sections[0].questions + sections[1].questions + sections[2].questions
  {
    var a, b, c := sections[0].questions, sections[1].questions, sections[2].questions;
    assert QuestionsBefore(sections, 0) == [];
    assert QuestionsBefore(sections, 1) == [] + a == a;
    assert QuestionsBefore(sections, 2) == a + b;
    assert QuestionsBefore(sections, 3) == a + b + c;
  }

  /** The catalog's sections are its three blocks. */
  lemma SectionBlocks()
    ensures |Sections| == 3
    ensures Sections[0].questions == PsychometricQuestions
    ensures Sections[1].questions == TechnicalQuestions
    ensures Sections[2].questions == WiscarQuestions
  {
    SectionsAreBlocks();
  }

  /** None of the catalog's sections is empty. */
  lemma SectionsNonEmpty()
    ensures NonEmpty(Sections)
  {
    SectionBlocks();
    BlockSizes();
    ThreeNonEmpty(Sections);
  }

  /** Three sections, none of them empty. */
  lemma ThreeNonEmpty(sections: seq<Section>)
    requires |sections| == 3
    requires |sections[0].questions| > 0 && |sections[1].questions| > 0 && |sections[2].questions| > 0
    ensures NonEmpty(sections)
  {
  }

  /** Together the catalog's sections are the whole catalog, in order. */
  lemma SectionsCoverCatalog()
    ensures AllQuestions(Sections) == AssessmentQuestions
  {
    SectionBlocks();
    AllOfThree(Sections);
  }

  /**
   * The catalog's sections are its three blocks, of 10, 8 and 7 questions;
   * none is empty, and together they are the whole catalog in order.
   */
  lemma SectionContents()
    ensures |Sections| == 3
    ensures Sections[0].questions == PsychometricQuestions
    ensures Sections[1].questions == TechnicalQuestions
    ensures Sections[2].questions == WiscarQuestions
    ensures NonEmpty(Sections)
    ensures AllQuestions(Sections) == AssessmentQuestions
  {
    SectionBlocks();
    SectionsNonEmpty();
    SectionsCoverCatalog();
  }

  /** On the catalog's sections the cursor shows the catalog question at its position. */
  lemma CatalogCursor(c: Cursor)
    requires InBounds(Sections, c)
    ensures Position(Sections, c) < |AssessmentQuestions|
    ensures CurrentQuestion(Sections, c) == Some(AssessmentQuestions[Position(Sections, c)])
  {
    SectionContents();
    CurrentIsAtPosition(Sections, c);
  }

  /**
   * From the start, 24 presses of the next button show the last of the 25
   * catalog questions with the flag still clear, and the 25th press sets it.
   */
  lemma CatalogTraversal()
    ensures InBounds(Sections, Start) && NonEmpty(Sections)
    ensures Position(Sections, AdvanceTimes(Sections, Start, 24)) == 24
    ensures !AdvanceTimes(Sections, Start, 24).complete && AdvanceTimes(Sections, Start, 25).complete
  {
    SectionContents();
    CatalogLayout();
    TraversalFromStart(Sections, 24);
    TraversalFromStart(Sections, 25);
  }
}
