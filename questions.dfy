/**
 * The static question catalog of src/data/questions.ts: ten psychometric
 * likert items, eight technical multiple-choice items and seven WISCAR
 * multiple-choice items, in that order, with the lemmas that describe it.
 */
module Questions {
  import opened Wrappers
  import opened Strings
  import opened Types

  // The single array literal of the source, cut at its section comments.

  const PsychometricQuestions: seq<Question> := [
    Question("psych_1", Psychometric, "interest", Likert, None, 1.0),
    Question("psych_2", Psychometric, "interest", Likert, None, 1.0),
    Question("psych_3", Psychometric, "personality", Likert, None, 1.0),
    Question("psych_4", Psychometric, "personality", Likert, None, 1.0),
    Question("psych_5", Psychometric, "cognitive", Likert, None, 1.0),
    Question("psych_6", Psychometric, "motivation", Likert, None, 1.0),
    Question("psych_7", Psychometric, "learning", Likert, None, 1.0),
    Question("psych_8", Psychometric, "personality", Likert, None, 1.0),
    Question("psych_9", Psychometric, "interest", Likert, None, 1.0),
    Question("psych_10", Psychometric, "motivation", Likert, None, 1.0)
  ]

  const TechnicalQuestions: seq<Question> := [
    Question("tech_1", Technical, "logical", MultipleChoice, Some(4), 1.5),
    Question("tech_2", Technical, "numerical", MultipleChoice, Some(4), 1.5),
    Question("tech_3", Technical, "scientific", MultipleChoice, Some(4), 1.5),
    Question("tech_4", Technical, "policy", MultipleChoice, Some(4), 2.0),
    Question("tech_5", Technical, "tools", MultipleChoice, Some(4), 1.5),
    Question("tech_6", Technical, "scientific", MultipleChoice, Some(4), 1.5),
    Question("tech_7", Technical, "logical", MultipleChoice, Some(4), 2.0),
    Question("tech_8", Technical, "numerical", MultipleChoice, Some(4), 1.5)
  ]

  const WiscarQuestions: seq<Question> := [
    Question("wiscar_1", Wiscar, "will", MultipleChoice, Some(4), 2.0),
    Question("wiscar_2", Wiscar, "interest", MultipleChoice, Some(4), 1.5),
    Question("wiscar_3", Wiscar, "skill", MultipleChoice, Some(4), 2.0),
    Question("wiscar_4", Wiscar, "cognitive", MultipleChoice, Some(4), 2.0),
    Question("wiscar_5", Wiscar, "ability", MultipleChoice, Some(4), 1.5),
    Question("wiscar_6", Wiscar, "reality", MultipleChoice, Some(4), 1.5),
    Question("wiscar_7", Wiscar, "will", MultipleChoice, Some(4), 2.0)
  ]

  /** `assessmentQuestions` */
  const AssessmentQuestions: seq<Question> := PsychometricQuestions + TechnicalQuestions + WiscarQuestions

  /** `questions.filter(q => q.category === category)`: the stable filter used for sections. */
  function FilterCategory(questions: seq<Question>, category: Category): (r: seq<Question>)
    ensures |r| <= |questions|
    ensures forall q :: q in r <==> q in questions && q.category == category
  {
    if questions == [] then []
    else (if questions[0].category == category then [questions[0]] else [])
         + FilterCategory(questions[1..], category)
  }

  /** The category filter keeps every question of that category as often as the list holds it, and no other. */
  lemma {:induction false} FilterCategoryCounts(questions: seq<Question>, category: Category)
    ensures forall q :: multiset(FilterCategory(questions, category))[q] == if q.category == category then multiset(questions)[q] else 0
  {
    if questions != [] {
      assert questions == [questions[0]] + questions[1..];
      FilterCategoryCounts(questions[1..], category);
    }
  }

  /** `questions.find(q => q.id === id)`: the first question with that identifier. */
  function FindQuestion(questions: seq<Question>, id: string): (r: Option<Question>)
    ensures r.None? <==> forall q :: q in questions ==> q.id != id
    ensures r.Some? ==> r.value in questions && r.value.id == id
    ensures r.Some? ==> exists i :: 0 <= i < |questions| && questions[i] == r.value
                                    && forall j :: 0 <= j < i ==> questions[j].id != id
  {
    if questions == [] then None
    else if questions[0].id == id then Some(questions[0])
    else FindQuestion(questions[1..], id)
  }

  /** The fixed identifier prefix of each category. */
  function CategoryPrefix(category: Category): string
  {
    match category
    case Psychometric => "psych_"
    case Technical => "tech_"
    case Wiscar => "wiscar_"
  }

  /** The number of questions in `questions` tagged with `subcategory`. */
  function CountSubcategory(questions: seq<Question>, subcategory: string): nat
  {
    if questions == [] then 0
    else (if questions[0].subcategory == subcategory then 1 else 0)
         + CountSubcategory(questions[1..], subcategory)
  }

  /** An identifier that `find` locates in the catalog. */
  predicate IsCatalogId(id: string)
  {
    FindQuestion(AssessmentQuestions, id).Some?
  }

  /** What every question of a block of the catalog looks like. */
  predicate BlockShape(q: Question, category: Category)
  {
    && q.category == category
    && StartsWith(q.id, CategoryPrefix(category))
    && 'l' !in q.id && 'n' !in q.id
    && q.weight > 0.0
    && (category == Psychometric ==> q.qtype == Likert && q.weight == 1.0 && q.options.None?)
    && (category != Psychometric ==>
          && q.qtype == MultipleChoice && q.options == Some(4)
          && (q.weight == 1.5 || q.weight == 2.0))
  }

  /** The three blocks: 10 psychometric, 8 technical and 7 WISCAR questions, each of its own shape. */
  lemma BlockLayout()
    ensures |PsychometricQuestions| == 10 && |TechnicalQuestions| == 8 && |WiscarQuestions| == 7
    ensures forall i :: 0 <= i < |PsychometricQuestions| ==> BlockShape(PsychometricQuestions[i], Psychometric)
    ensures forall i :: 0 <= i < |TechnicalQuestions| ==> BlockShape(TechnicalQuestions[i], Technical)
    ensures forall i :: 0 <= i < |WiscarQuestions| ==> BlockShape(WiscarQuestions[i], Wiscar)
  {
    PsychometricShape();
    TechnicalShape();
    WiscarShape();
  }

  /** The sizes of the three blocks. */
  lemma BlockSizes()
    ensures |PsychometricQuestions| == 10 && |TechnicalQuestions| == 8 && |WiscarQuestions| == 7
  {
  }

  lemma PsychometricShape()
    ensures |PsychometricQuestions| == 10
    ensures forall i :: 0 <= i < |PsychometricQuestions| ==> BlockShape(PsychometricQuestions[i], Psychometric)
  {
  }

  lemma TechnicalShape()
    ensures |TechnicalQuestions| == 8
    ensures forall i :: 0 <= i < |TechnicalQuestions| ==> BlockShape(TechnicalQuestions[i], Technical)
  {
  }

  lemma WiscarShape()
    ensures |WiscarQuestions| == 7
    ensures forall i :: 0 <= i < |WiscarQuestions| ==> BlockShape(WiscarQuestions[i], Wiscar)
  {
  }

  /** Indexing a concatenation of three sequences. */
  lemma IndexOfThree<T>(a: seq<T>, b: seq<T>, c: seq<T>, k: nat)
    requires k < |a| + |b| + |c|
    ensures (a + b + c)[k] == if k < |a| then a[k] else if k < |a| + |b| then b[k - |a|] else c[k - |a| - |b|]
  {
  }

  /** The catalog question at position `k`: the psychometric block, then the technical, then the WISCAR. */
  lemma CatalogAt(k: nat)
    requires k < |AssessmentQuestions|
    ensures |AssessmentQuestions| == 25
    ensures AssessmentQuestions[k]
            == if k < 10 then PsychometricQuestions[k]
               else if k < 18 then TechnicalQuestions[k - 10]
               else WiscarQuestions[k - 18]
    ensures BlockShape(AssessmentQuestions[k], AssessmentQuestions[k].category)
    ensures AssessmentQuestions[k].category
            == if k < 10 then Psychometric else if k < 18 then Technical else Wiscar
  {
    BlockLayout();
    IndexOfThree(PsychometricQuestions, TechnicalQuestions, WiscarQuestions, k);
  }

  /** The catalog holds 10 psychometric, 8 technical and 7 WISCAR questions, 25 in all, in that order. */
  lemma CatalogLayout()
    ensures |PsychometricQuestions| == 10 && |TechnicalQuestions| == 8 && |WiscarQuestions| == 7
    ensures |AssessmentQuestions| == 25
    ensures forall k :: 0 <= k < |AssessmentQuestions| ==>
              AssessmentQuestions[k].category
              == if k < 10 then Psychometric else if k < 18 then Technical else Wiscar
  {
    BlockLayout();
    forall k | 0 <= k < |AssessmentQuestions|
      ensures AssessmentQuestions[k].category
              == if k < 10 then Psychometric else if k < 18 then Technical else Wiscar
    {
      CatalogAt(k);
    }
  }

  lemma PsychometricIdsUnique()
    ensures forall i, j :: 0 <= i < j < |PsychometricQuestions| ==>
              PsychometricQuestions[i].id != PsychometricQuestions[j].id
  {
  }

  lemma TechnicalIdsUnique()
    ensures forall i, j :: 0 <= i < j < |TechnicalQuestions| ==>
              TechnicalQuestions[i].id != TechnicalQuestions[j].id
  {
  }

  lemma WiscarIdsUnique()
    ensures forall i, j :: 0 <= i < j < |WiscarQuestions| ==>
              WiscarQuestions[i].id != WiscarQuestions[j].id
  {
  }

  /** No two catalog questions share an identifier. */
  lemma IdsUnique()
    ensures forall i, j :: 0 <= i < j < |AssessmentQuestions| ==>
              AssessmentQuestions[i].id != AssessmentQuestions[j].id
  {
    PsychometricIdsUnique();
    TechnicalIdsUnique();
    WiscarIdsUnique();
    forall i, j | 0 <= i < j < |AssessmentQuestions|
      ensures AssessmentQuestions[i].id != AssessmentQuestions[j].id
    {
      CatalogAt(i);
      CatalogAt(j);
      var a, b := AssessmentQuestions[i], AssessmentQuestions[j];
      if a.category != b.category {
        assert a.id[0] == CategoryPrefix(a.category)[0];
        assert b.id[0] == CategoryPrefix(b.category)[0];
      }
    }
  }

  /**
   * Each identifier starts with the prefix of its own category and with no
   * other category's prefix, so selecting answers by prefix selects them by
   * category.
   */
  lemma PrefixMatchesCategory(k: nat, category: Category)
    requires k < |AssessmentQuestions|
    ensures StartsWith(AssessmentQuestions[k].id, CategoryPrefix(category))
            <==> AssessmentQuestions[k].category == category
  {
    CatalogAt(k);
    var q := AssessmentQuestions[k];
    assert q.id[0] == CategoryPrefix(q.category)[0];
  }

  /**
   * Likert items are exactly the psychometric ones; they weigh 1 and carry no
   * options.  Every other item is a multiple-choice item with exactly four
   * options, weighing 1.5 or 2; no item is boolean and every weight is positive.
   */
  lemma QuestionShape(k: nat)
    requires k < |AssessmentQuestions|
    ensures var q := AssessmentQuestions[k];
            && q.weight > 0.0
            && (q.qtype == Likert <==> q.category == Psychometric)
            && (q.qtype == Likert ==> q.weight == 1.0 && q.options.None?)
            && (q.qtype != Likert ==> q.qtype == MultipleChoice && q.options == Some(4)
                                      && (q.weight == 1.5 || q.weight == 2.0))
  {
    CatalogAt(k);
  }

  /** No identifier contains the letters `l` or `n`. */
  lemma IdLetters(k: nat)
    requires k < |AssessmentQuestions|
    ensures 'l' !in AssessmentQuestions[k].id && 'n' !in AssessmentQuestions[k].id
  {
    CatalogAt(k);
  }

  /**
   * The WISCAR subcategory tags name `will` twice and each other dimension
   * once, matching the fixed divisors 2 and 1 of the dimension scores.
   */
  lemma WiscarDimensionCounts()
    ensures CountSubcategory(WiscarQuestions, "will") == 2
    ensures CountSubcategory(WiscarQuestions, "interest") == 1
    ensures CountSubcategory(WiscarQuestions, "skill") == 1
    ensures CountSubcategory(WiscarQuestions, "cognitive") == 1
    ensures CountSubcategory(WiscarQuestions, "ability") == 1
    ensures CountSubcategory(WiscarQuestions, "reality") == 1
    ensures WiscarQuestions[0].subcategory == "will" && WiscarQuestions[6].subcategory == "will"
  {
  }

  lemma {:induction false} FilterCategoryConcat(a: seq<Question>, b: seq<Question>, category: Category)
    ensures FilterCategory(a + b, category) == FilterCategory(a, category) + FilterCategory(b, category)
  {
    if a == [] {
      assert a + b == b;
    } else {
      assert (a + b)[1..] == a[1..] + b;
      FilterCategoryConcat(a[1..], b, category);
    }
  }

  lemma {:induction false} FilterCategoryAll(a: seq<Question>, category: Category)
    requires forall i :: 0 <= i < |a| ==> a[i].category == category
    ensures FilterCategory(a, category) == a
  {
    if a != [] {
      FilterCategoryAll(a[1..], category);
    }
  }

  lemma {:induction false} FilterCategoryNone(a: seq<Question>, category: Category)
    requires forall i :: 0 <= i < |a| ==> a[i].category != category
    ensures FilterCategory(a, category) == []
  {
    if a != [] {
      FilterCategoryNone(a[1..], category);
    }
  }

  /**
   * Filtering three concatenated blocks, each of one category, keeps the one
   * block `k` that holds the requested category.
   */
  lemma FilterThreeBlocks(a: seq<Question>, b: seq<Question>, c: seq<Question>, category: Category, k: nat)
    requires k < 3
    requires forall i :: 0 <= i < |a| ==> (a[i].category == category <==> k == 0)
    requires forall i :: 0 <= i < |b| ==> (b[i].category == category <==> k == 1)
    requires forall i :: 0 <= i < |c| ==> (c[i].category == category <==> k == 2)
    ensures FilterCategory(a + b + c, category) == [a, b, c][k]
  {
    FilterCategoryConcat(a, b, category);
    FilterCategoryConcat(a + b, c, category);
    if k == 0 { FilterCategoryAll(a, category); } else { FilterCategoryNone(a, category); }
    if k == 1 { FilterCategoryAll(b, category); } else { FilterCategoryNone(b, category); }
    if k == 2 { FilterCategoryAll(c, category); } else { FilterCategoryNone(c, category); }
  }

  /** Three blocks of one category each are filtered apart again, block by block. */
  lemma SectionsOf(p: seq<Question>, t: seq<Question>, w: seq<Question>)
    requires forall i :: 0 <= i < |p| ==> p[i].category == Psychometric
    requires forall i :: 0 <= i < |t| ==> t[i].category == Technical
    requires forall i :: 0 <= i < |w| ==> w[i].category == Wiscar
    ensures FilterCategory(p + t + w, Psychometric) == p
    ensures FilterCategory(p + t + w, Technical) == t
    ensures FilterCategory(p + t + w, Wiscar) == w
  {
    FilterThreeBlocks(p, t, w, Psychometric, 0);
    FilterThreeBlocks(p, t, w, Technical, 1);
    FilterThreeBlocks(p, t, w, Wiscar, 2);
  }

  /** The categories of the three blocks. */
  lemma BlockCategories()
    ensures forall i :: 0 <= i < |PsychometricQuestions| ==> PsychometricQuestions[i].category == Psychometric
    ensures forall i :: 0 <= i < |TechnicalQuestions| ==> TechnicalQuestions[i].category == Technical
    ensures forall i :: 0 <= i < |WiscarQuestions| ==> WiscarQuestions[i].category == Wiscar
  {
  }

  /**
   * Filtering the catalog by category yields exactly the three blocks of the
   * array literal, in catalog order: a stable partition of the catalog.
   */
  lemma SectionsAreBlocks()
    ensures FilterCategory(AssessmentQuestions, Psychometric) == PsychometricQuestions
    ensures FilterCategory(AssessmentQuestions, Technical) == TechnicalQuestions
    ensures FilterCategory(AssessmentQuestions, Wiscar) == WiscarQuestions
  {
    BlockCategories();
    SectionsOf(PsychometricQuestions, TechnicalQuestions, WiscarQuestions);
  }

  /** Each question of a list with unique identifiers is the one `find` returns for its identifier. */
  lemma {:induction false} FindUnique(questions: seq<Question>, k: nat)
    requires k < |questions|
    requires forall i, j :: 0 <= i < j < |questions| ==> questions[i].id != questions[j].id
    ensures FindQuestion(questions, questions[k].id) == Some(questions[k])
  {
    if k > 0 {
      assert questions[0].id != questions[k].id;
      assert questions[1..][k - 1] == questions[k];
      FindUnique(questions[1..], k - 1);
    }
  }

  /** Looking up a catalog question by its own identifier finds that question. */
  lemma FindCatalogQuestion(k: nat)
    requires k < |AssessmentQuestions|
    ensures IsCatalogId(AssessmentQuestions[k].id)
    ensures FindQuestion(AssessmentQuestions, AssessmentQuestions[k].id) == Some(AssessmentQuestions[k])
  {
    IdsUnique();
    FindUnique(AssessmentQuestions, k);
  }

  /** A catalog identifier belongs to one catalog position, the question `find` returns. */
  lemma CatalogIdIndex(id: string) returns (k: nat)
    requires IsCatalogId(id)
    ensures k < |AssessmentQuestions| && AssessmentQuestions[k].id == id
    ensures FindQuestion(AssessmentQuestions, id) == Some(AssessmentQuestions[k])
  {
    var q := FindQuestion(AssessmentQuestions, id).value;
    k :| 0 <= k < |AssessmentQuestions| && AssessmentQuestions[k] == q;
  }
}
