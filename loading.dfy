/** Building the retriever's record list from the parsed knowledge source:
    the strict loop (every key is indexed directly, so a missing key raises
    `KeyError`) and the guarded loop (absent keys are skipped or defaulted).
    Both append each record and its embedding to two parallel lists. */
module Loading {
  import opened Faq

  /** The record list and the embedding stored at the same position. */
  datatype VectorIndex<V> = VectorIndex(questions: seq<QA>, embeddings: seq<V>)

  /** Position `i` of `embeddings` is the embedding of question `i`. */
  predicate AlignedLists<V(==)>(questions: seq<QA>, embeddings: seq<V>, embed: string -> V) {
    |questions| == |embeddings| &&
    forall i :: 0 <= i < |questions| ==> embeddings[i] == embed(questions[i].question)
  }

  predicate Aligned<V(==)>(idx: VectorIndex<V>, embed: string -> V) {
    AlignedLists(idx.questions, idx.embeddings, embed)
  }

  // ------------------------------------------------------- a well-formed source

  function RawOf(qa: QA): RawQA {
    RawQA(Some(qa.question), Some(qa.answer))
  }

  function RawQuestions(qs: seq<QA>): seq<RawQA> {
    seq(|qs|, i requires 0 <= i < |qs| => RawOf(qs[i]))
  }

  function RawCategoryOf(c: Category): RawCategory {
    RawCategory(Some(c.name), Some(RawQuestions(c.questions)))
  }

  /** The JSON document `{"faq_data": cats}` as it is parsed. */
  function SourceOf(cats: seq<Category>): RawSource {
    RawSource(Some(seq(|cats|, i requires 0 <= i < |cats| => RawCategoryOf(cats[i]))))
  }

  // ------------------------------------------------------------ strict loader

  /** `{"question": qa['question'], "answer": qa['answer']}`, the question key
      being read first. */
  function StrictPair(r: RawQA): Result<QA, MissingKey> {
    if r.question.None? then Err(MissingKey("question"))
    else if r.answer.None? then Err(MissingKey("answer"))
    else Ok(QA(r.question.value, r.answer.value))
  }

  /** The pairs of one category; the first malformed pair raises. */
  function StrictPairs(qas: seq<RawQA>): (r: Result<seq<QA>, MissingKey>)
    ensures r.Ok? ==> |r.value| == |qas|
    ensures r.Err? ==> r.error.key in {"question", "answer"}
  {
    if qas == [] then Ok([])
    else match StrictPairs(qas[..|qas| - 1])
      case Err(e) => Err(e)
      case Ok(prev) =>
        match StrictPair(qas[|qas| - 1])
        case Err(e) => Err(e)
        case Ok(qa) => Ok(prev + [qa])
  }

  /** The records of the categories in order; a category without `questions`
      raises. */
  function StrictCategories(cats: seq<RawCategory>): (r: Result<seq<QA>, MissingKey>)
    ensures r.Err? ==> r.error.key in {"questions", "question", "answer"}
  {
    if cats == [] then Ok([])
    else match StrictCategories(cats[..|cats| - 1])
      case Err(e) => Err(e)
      case Ok(prev) =>
        var last := cats[|cats| - 1];
        if last.questions.None? then Err(MissingKey("questions"))
        else match StrictPairs(last.questions.value)
          case Err(e) => Err(e)
          case Ok(qs) => Ok(prev + qs)
  }

  /** What the strict loop of the module-level index build produces, or the
      key whose absence stops it. */
  function StrictRecords(src: RawSource): (r: Result<seq<QA>, MissingKey>)
    ensures r.Err? ==> r.error.key in {"faq_data", "questions", "question", "answer"}
  {
    if src.faqData.None? then Err(MissingKey("faq_data"))
    else StrictCategories(src.faqData.value)
  }

  /** Every key the strict loop reads is present. */
  predicate WellFormed(src: RawSource) {
    src.faqData.Some? &&
    forall c :: c in src.faqData.value ==>
      c.questions.Some? &&
      forall r :: r in c.questions.value ==> r.question.Some? && r.answer.Some?
  }

  lemma {:induction false} StrictPairsOkIff(qas: seq<RawQA>)
    ensures StrictPairs(qas).Ok? <==> forall r :: r in qas ==> r.question.Some? && r.answer.Some?
  {
    if qas != [] {
      var init := qas[..|qas| - 1];
      StrictPairsOkIff(init);
      assert qas == init + [qas[|qas| - 1]];
    }
  }

  lemma {:induction false} StrictCategoriesOkIff(cats: seq<RawCategory>)
    ensures StrictCategories(cats).Ok? <==>
      forall c :: c in cats ==>
        c.questions.Some? &&
        forall r :: r in c.questions.value ==> r.question.Some? && r.answer.Some?
  {
    if cats != [] {
      var init, last := cats[..|cats| - 1], cats[|cats| - 1];
      StrictCategoriesOkIff(init);
      if last.questions.Some? {
        StrictPairsOkIff(last.questions.value);
      }
      assert cats == init + [last];
    }
  }

  /** The strict loader succeeds exactly on sources that have every key it
      reads; on any other source it raises. */
  lemma StrictRecordsOkIff(src: RawSource)
    ensures StrictRecords(src).Ok? <==> WellFormed(src)
  {
    if src.faqData.Some? {
      StrictCategoriesOkIff(src.faqData.value);
    }
  }

  lemma {:induction false} StrictPairsOfRaw(qs: seq<QA>)
    ensures StrictPairs(RawQuestions(qs)) == Ok(qs)
  {
    if qs != [] {
      var init := qs[..|qs| - 1];
      StrictPairsOfRaw(init);
      assert RawQuestions(qs)[..|qs| - 1] == RawQuestions(init);
      assert qs == init + [qs[|qs| - 1]];
    }
  }

  lemma {:induction false} StrictCategoriesOfRaw(cats: seq<Category>)
    ensures StrictCategories(SourceOf(cats).faqData.value) == Ok(Flatten(cats))
  {
    if cats != [] {
      var init := cats[..|cats| - 1];
      StrictCategoriesOfRaw(init);
      assert SourceOf(cats).faqData.value[..|cats| - 1] == SourceOf(init).faqData.value;
      StrictPairsOfRaw(cats[|cats| - 1].questions);
    }
  }

  /** On the document `{"faq_data": cats}` the strict loader yields exactly
      the flattened records, in category order and then question order. */
  lemma StrictRecordsOfSource(cats: seq<Category>)
    ensures StrictRecords(SourceOf(cats)) == Ok(Flatten(cats))
  {
    StrictCategoriesOfRaw(cats);
  }

  /** Once a prefix of the pairs raises, the whole list raises the same way. */
  lemma {:induction false} StrictPairsErrPrefix(qas: seq<RawQA>, n: nat)
    requires n <= |qas| && StrictPairs(qas[..n]).Err?
    ensures StrictPairs(qas) == StrictPairs(qas[..n])
  {
    if n == |qas| {
      assert qas[..n] == qas;
    } else {
      var init := qas[..|qas| - 1];
      assert init[..n] == qas[..n];
      StrictPairsErrPrefix(init, n);
    }
  }

  lemma {:induction false} StrictCategoriesErrPrefix(cats: seq<RawCategory>, n: nat)
    requires n <= |cats| && StrictCategories(cats[..n]).Err?
    ensures StrictCategories(cats) == StrictCategories(cats[..n])
  {
    if n == |cats| {
      assert cats[..n] == cats;
    } else {
      var init := cats[..|cats| - 1];
      assert init[..n] == cats[..n];
      StrictCategoriesErrPrefix(init, n);
    }
  }

  /** One more well-formed pair extends the records of a category. */
  lemma StrictPairsStep(qas: seq<RawQA>, j: nat)
    requires j < |qas| && StrictPairs(qas[..j]).Ok? && StrictPair(qas[j]).Ok?
    ensures StrictPairs(qas[..j + 1]) == Ok(StrictPairs(qas[..j]).value + [StrictPair(qas[j]).value])
  {
    assert qas[..j + 1][..j] == qas[..j];
  }

  /** One more well-formed category extends the records. */
  lemma StrictCategoriesStep(cats: seq<RawCategory>, c: nat)
    requires c < |cats| && StrictCategories(cats[..c]).Ok? && cats[c].questions.Some?
    requires StrictPairs(cats[c].questions.value).Ok?
    ensures StrictCategories(cats[..c + 1])
         == Ok(StrictCategories(cats[..c]).value + StrictPairs(cats[c].questions.value).value)
  {
    assert cats[..c + 1][..c] == cats[..c];
  }

  /** A category without `questions`, reached with no earlier error, is the
      error of the whole load. */
  lemma CategoryRaises(cats: seq<RawCategory>, c: nat)
    requires c < |cats| && StrictCategories(cats[..c]).Ok? && cats[c].questions.None?
    ensures StrictCategories(cats) == Err(MissingKey("questions"))
  {
    assert cats[..c + 1][..c] == cats[..c];
    StrictCategoriesErrPrefix(cats, c + 1);
  }

  /** A malformed pair, reached with no earlier error, is the error of the
      whole load. */
  lemma PairRaises(cats: seq<RawCategory>, c: nat, j: nat)
    requires c < |cats| && StrictCategories(cats[..c]).Ok? && cats[c].questions.Some?
    requires j < |cats[c].questions.value| && StrictPairs(cats[c].questions.value[..j]).Ok?
    requires StrictPair(cats[c].questions.value[j]).Err?
    ensures StrictCategories(cats) == Err(StrictPair(cats[c].questions.value[j]).error)
  {
    var qas := cats[c].questions.value;
    assert qas[..j + 1][..j] == qas[..j];
    StrictPairsErrPrefix(qas, j + 1);
    assert cats[..c + 1][..c] == cats[..c];
    StrictCategoriesErrPrefix(cats, c + 1);
  }

  // ----------------------------------------------------------- guarded loader

  /** `qa.get('question', '')`, `qa.get('answer', '')`, kept only when the
      question is non-empty. */
  function GuardedPair(r: RawQA): Option<QA> {
    var question := r.question.GetOr("");
    if question != "" then Some(QA(question, r.answer.GetOr(""))) else None
  }

  function GuardedPairs(qas: seq<RawQA>): (r: seq<QA>)
    ensures |r| <= |qas|
    ensures forall i :: 0 <= i < |r| ==> r[i].question != ""
  {
    if qas == [] then []
    else
      var prev := GuardedPairs(qas[..|qas| - 1]);
      match GuardedPair(qas[|qas| - 1])
      case None => prev
      case Some(qa) => prev + [qa]
  }

  /** Categories without `questions` are skipped. */
  function GuardedCategories(cats: seq<RawCategory>): (r: seq<QA>)
    ensures forall i :: 0 <= i < |r| ==> r[i].question != ""
  {
    if cats == [] then []
    else
      var prev := GuardedCategories(cats[..|cats| - 1]);
      var last := cats[|cats| - 1];
      if last.questions.None? then prev else prev + GuardedPairs(last.questions.value)
  }

  /** What the guarded loop produces; a source without `faq_data` yields no
      records. */
  function GuardedRecords(src: RawSource): seq<QA> {
    if src.faqData.None? then [] else GuardedCategories(src.faqData.value)
  }

  /** The records of a flat list whose question is non-empty, in order. */
  function Asked(rs: seq<QA>): seq<QA> {
    if rs == [] then []
    else Asked(rs[..|rs| - 1]) + (if rs[|rs| - 1].question != "" then [rs[|rs| - 1]] else [])
  }

  lemma {:induction false} AskedAppend(a: seq<QA>, b: seq<QA>)
    ensures Asked(a + b) == Asked(a) + Asked(b)
  {
    if b == [] {
      assert a + b == a;
    } else {
      assert (a + b)[..|a + b| - 1] == a + b[..|b| - 1];
      AskedAppend(a, b[..|b| - 1]);
    }
  }

  lemma {:induction false} GuardedPairsOfRaw(qs: seq<QA>)
    ensures GuardedPairs(RawQuestions(qs)) == Asked(qs)
  {
    if qs != [] {
      var init := qs[..|qs| - 1];
      GuardedPairsOfRaw(init);
      assert RawQuestions(qs)[..|qs| - 1] == RawQuestions(init);
    }
  }

  lemma {:induction false} GuardedCategoriesOfRaw(cats: seq<Category>)
    ensures GuardedCategories(SourceOf(cats).faqData.value) == Asked(Flatten(cats))
  {
    if cats != [] {
      var init, last := cats[..|cats| - 1], cats[|cats| - 1];
      var raw := SourceOf(cats).faqData.value;
      assert GuardedCategories(raw) == GuardedCategories(SourceOf(init).faqData.value) + GuardedPairs(RawQuestions(last.questions)) by {
        assert raw[..|cats| - 1] == SourceOf(init).faqData.value;
        assert raw[|cats| - 1] == RawCategoryOf(last);
      }
      assert GuardedCategories(SourceOf(init).faqData.value) == Asked(Flatten(init)) by {
        GuardedCategoriesOfRaw(init);
      }
      assert GuardedPairs(RawQuestions(last.questions)) == Asked(last.questions) by {
        GuardedPairsOfRaw(last.questions);
      }
      AskedAppend(Flatten(init), last.questions);
    }
  }

  /** Every pair with an absent key read as `''`. */
  function Defaulted(qas: seq<RawQA>): seq<QA> {
    seq(|qas|, i requires 0 <= i < |qas| => QA(qas[i].question.GetOr(""), qas[i].answer.GetOr("")))
  }

  /** The defaulted pairs of every category that has `questions`; a category
      without the key contributes nothing. */
  function DefaultedCategories(cats: seq<RawCategory>): seq<QA> {
    if cats == [] then []
    else
      var last := cats[|cats| - 1];
      DefaultedCategories(cats[..|cats| - 1]) + (if last.questions.Some? then Defaulted(last.questions.value) else [])
  }

  /** Of the pairs of one category, the guarded loop keeps exactly those with
      a non-empty question, in order, with a missing answer read as `''`. */
  lemma {:induction false} GuardedPairsKeepAsked(qas: seq<RawQA>)
    ensures GuardedPairs(qas) == Asked(Defaulted(qas))
  {
    if qas != [] {
      var init := qas[..|qas| - 1];
      var last := qas[|qas| - 1];
      GuardedPairsKeepAsked(init);
      var d := QA(last.question.GetOr(""), last.answer.GetOr(""));
      assert Defaulted(qas) == Defaulted(init) + [d];
      AskedAppend(Defaulted(init), [d]);
      assert [d][..0] == [];
    }
  }

  /** Over all categories the guarded loop keeps exactly the defaulted pairs
      with a non-empty question, in order, skipping categories without
      `questions`. */
  lemma {:induction false} GuardedCategoriesKeepAsked(cats: seq<RawCategory>)
    ensures GuardedCategories(cats) == Asked(DefaultedCategories(cats))
  {
    if cats != [] {
      var init, last := cats[..|cats| - 1], cats[|cats| - 1];
      GuardedCategoriesKeepAsked(init);
      if last.questions.Some? {
        GuardedPairsKeepAsked(last.questions.value);
        AskedAppend(DefaultedCategories(init), Defaulted(last.questions.value));
      } else {
        assert DefaultedCategories(cats) == DefaultedCategories(init) + [];
        assert DefaultedCategories(init) + [] == DefaultedCategories(init);
        assert GuardedCategories(cats) == GuardedCategories(init);
      }
    }
  }

  /** What the guarded loop keeps from any source: nothing without
      `faq_data`, else the defaulted pairs with a non-empty question. */
  lemma GuardedRecordsKeepAsked(src: RawSource)
    ensures src.faqData.None? ==> GuardedRecords(src) == []
    ensures src.faqData.Some? ==> GuardedRecords(src) == Asked(DefaultedCategories(src.faqData.value))
  {
    if src.faqData.Some? {
      GuardedCategoriesKeepAsked(src.faqData.value);
    }
  }

  lemma {:induction false} GuardedCategoriesAppend(a: seq<RawCategory>, b: seq<RawCategory>)
    ensures GuardedCategories(a + b) == GuardedCategories(a) + GuardedCategories(b)
  {
    if b == [] {
      assert a + b == a;
    } else {
      assert (a + b)[..|a + b| - 1] == a + b[..|b| - 1];
      GuardedCategoriesAppend(a, b[..|b| - 1]);
    }
  }

  /** A category without `questions` can be removed from the source without
      changing what the guarded loop keeps. */
  lemma GuardedSkipsCategoryWithoutQuestions(cats: seq<RawCategory>, c: nat)
    requires c < |cats| && cats[c].questions.None?
    ensures GuardedCategories(cats) == GuardedCategories(cats[..c] + cats[c + 1..])
  {
    var pre, mid, post := cats[..c], [cats[c]], cats[c + 1..];
    assert GuardedCategories(cats) == GuardedCategories(pre + mid) + GuardedCategories(post) by {
      assert cats == (pre + mid) + post;
      GuardedCategoriesAppend(pre + mid, post);
    }
    assert GuardedCategories(pre + mid) == GuardedCategories(pre) by {
      GuardedCategoriesAppend(pre, mid);
      assert mid[..0] == [];
      assert GuardedCategories(mid) == [];
    }
    GuardedCategoriesAppend(pre, post);
  }

  /** On the document `{"faq_data": cats}` the guarded loader keeps exactly
      the records with a non-empty question, in source order. */
  lemma GuardedRecordsOfSource(cats: seq<Category>)
    ensures GuardedRecords(SourceOf(cats)) == Asked(Flatten(cats))
  {
    GuardedCategoriesOfRaw(cats);
  }

  lemma {:induction false} GuardedPairsAgree(qas: seq<RawQA>)
    requires StrictPairs(qas).Ok?
    requires forall i :: 0 <= i < |qas| ==> StrictPairs(qas).value[i].question != ""
    ensures GuardedPairs(qas) == StrictPairs(qas).value
  {
    if qas != [] {
      var init := qas[..|qas| - 1];
      var prev := StrictPairs(init).value;
      assert StrictPairs(qas).value == prev + [StrictPair(qas[|qas| - 1]).value];
      assert forall i :: 0 <= i < |init| ==> prev[i] == StrictPairs(qas).value[i];
      GuardedPairsAgree(init);
      var last := qas[|qas| - 1];
      assert StrictPairs(qas).value[|qas| - 1] == StrictPair(last).value;
      assert GuardedPair(last) == Some(StrictPair(last).value);
    }
  }

  lemma {:induction false} GuardedCategoriesAgree(cats: seq<RawCategory>)
    requires StrictCategories(cats).Ok?
    requires forall i :: 0 <= i < |StrictCategories(cats).value| ==> StrictCategories(cats).value[i].question != ""
    ensures GuardedCategories(cats) == StrictCategories(cats).value
  {
    if cats != [] {
      var init, last := cats[..|cats| - 1], cats[|cats| - 1];
      var prev := StrictCategories(init).value;
      var qs := StrictPairs(last.questions.value).value;
      assert StrictCategories(cats).value == prev + qs;
      assert forall i :: 0 <= i < |prev| ==> prev[i] == StrictCategories(cats).value[i];
      assert forall i :: 0 <= i < |qs| ==> qs[i] == StrictCategories(cats).value[|prev| + i];
      GuardedCategoriesAgree(init);
      GuardedPairsAgree(last.questions.value);
    }
  }

  /** Where the strict loader succeeds and every question is non-empty, the
      two loaders build the same record list. */
  lemma GuardedAgreesWithStrict(src: RawSource)
    requires StrictRecords(src).Ok?
    requires forall i :: 0 <= i < |StrictRecords(src).value| ==> StrictRecords(src).value[i].question != ""
    ensures GuardedRecords(src) == StrictRecords(src).value
  {
    GuardedCategoriesAgree(src.faqData.value);
  }

  // ------------------------------------------------------------------ the loops

  /** The module-level loop of the strict variants: for each category, for
      each pair, embed the question, then append the record and the
      embedding. */
  method BuildStrictIndex<V(==)>(src: RawSource, embed: string -> V) returns (r: Result<VectorIndex<V>, MissingKey>)
    ensures r.Ok? <==> StrictRecords(src).Ok?
    ensures r.Err? ==> r.error == StrictRecords(src).error
    ensures r.Ok? ==> r.value.questions == StrictRecords(src).value && Aligned(r.value, embed)
  {
    if src.faqData.None? {
      return Err(MissingKey("faq_data"));
    }
    var cats := src.faqData.value;
    var questions: seq<QA> := [];
    var embeddings: seq<V> := [];
    for c := 0 to |cats|
      invariant StrictCategories(cats[..c]) == Ok(questions)
      invariant AlignedLists(questions, embeddings, embed)
    {
      var category := cats[c];
      if category.questions.None? {
        CategoryRaises(cats, c);
        return Err(MissingKey("questions"));
      }
      var qas := category.questions.value;
      ghost var prev := questions;
      for j := 0 to |qas|
        invariant StrictPairs(qas[..j]).Ok? && questions == prev + StrictPairs(qas[..j]).value
        invariant AlignedLists(questions, embeddings, embed)
      {
        var qa := qas[j];
        if qa.question.None? {
          PairRaises(cats, c, j);
          return Err(MissingKey("question"));
        }
        var question := qa.question.value;
        var embedding := embed(question);
        if qa.answer.None? {
          PairRaises(cats, c, j);
          return Err(MissingKey("answer"));
        }
        StrictPairsStep(qas, j);
        questions := questions + [QA(question, qa.answer.value)];
        embeddings := embeddings + [embedding];
      }
      assert qas[..|qas|] == qas;
      StrictCategoriesStep(cats, c);
    }
    assert cats[..|cats|] == cats;
    return Ok(VectorIndex(questions, embeddings));
  }

  /** The guarded loop of the hybrid variant: absent `faq_data` or
      `questions` keys are skipped, pairs without a non-empty question are
      skipped, and a missing answer becomes `''`. */
  method BuildGuardedIndex<V(==)>(src: RawSource, embed: string -> V) returns (idx: VectorIndex<V>)
    ensures idx.questions == GuardedRecords(src) && Aligned(idx, embed)
  {
    var questions: seq<QA> := [];
    var embeddings: seq<V> := [];
    if src.faqData.Some? {
      var cats := src.faqData.value;
      for c := 0 to |cats|
        invariant questions == GuardedCategories(cats[..c])
        invariant AlignedLists(questions, embeddings, embed)
      {
        var category := cats[c];
        assert cats[..c + 1][..c] == cats[..c];
        if category.questions.Some? {
          var qas := category.questions.value;
          ghost var prev := questions;
          for j := 0 to |qas|
            invariant questions == prev + GuardedPairs(qas[..j])
            invariant AlignedLists(questions, embeddings, embed)
          {
            var qa := qas[j];
            assert qas[..j + 1][..j] == qas[..j];
            var question := qa.question.GetOr("");
            var answer := qa.answer.GetOr("");
            if question != "" {
              var embedding := embed(question);
              questions := questions + [QA(question, answer)];
              embeddings := embeddings + [embedding];
            }
          }
          assert qas[..|qas|] == qas;
        }
      }
      assert cats[..|cats|] == cats;
    }
    idx := VectorIndex(questions, embeddings);
  }
}
