/** Mapping a nearest-neighbour search back to a stored record. The embedder
    is a function `embed: string -> V`; the vector index is an oracle that,
    given the stored embeddings, a query vector and `k`, returns the first row
    of FAISS's `indices` (positions, best first; FAISS pads with -1 when it has
    fewer than `k` results). The lookup itself is Python list indexing. */
module Retrieval {
  import opened Faq
  import opened Loading

  datatype SearchError = IndexError | KeyError(key: string)

  /** The k each variant asks the index for. */
  const StrictSearchK: nat := 2
  const BasicSearchK: nat := 1
  const FlatSearchK: nat := 1

  /** Python's `xs[i]`: a negative position counts from the end. */
  function PyIndex<T>(xs: seq<T>, i: int): (r: Result<T, SearchError>)
    ensures r.Ok? <==> -|xs| <= i < |xs|
    ensures r.Ok? ==> r.value in xs
    ensures 0 <= i < |xs| ==> r == Ok(xs[i])
    ensures -|xs| <= i < 0 ==> r == Ok(xs[|xs| + i])
  {
    if 0 <= i < |xs| then Ok(xs[i])
    else if -|xs| <= i < 0 then Ok(xs[|xs| + i])
    else Err(IndexError)
  }

  /** `records[indices[0][0]]` for the first row `row` of `indices`. Only
      the top-ranked position is read; an empty record list always raises. */
  function TopHit<T>(records: seq<T>, row: seq<int>): (r: Result<T, SearchError>)
    ensures records == [] ==> r == Err(IndexError)
    ensures r.Ok? ==> r.value in records
    ensures |row| > 0 && 0 <= row[0] < |records| ==> r == Ok(records[row[0]])
    ensures |row| > 0 && -|records| <= row[0] < 0 ==> r == Ok(records[|records| + row[0]])
    ensures |row| == 0 ==> r == Err(IndexError)
  {
    if |row| == 0 then Err(IndexError) else PyIndex(records, row[0])
  }

  /** `search_similar_question` of the strict variants: a k=2 search whose
      second hit is ignored; the record returned is the one at the position
      the index ranked first. */
  function SearchSimilarQuestion<V>(idx: VectorIndex<V>, embed: string -> V,
                                    search: (seq<V>, V, nat) -> seq<int>, prompt: string): (r: Result<QA, SearchError>)
    ensures idx.questions == [] ==> r == Err(IndexError)
    ensures r.Ok? ==> r.value in idx.questions
    ensures var row := search(idx.embeddings, embed(prompt), StrictSearchK);
            |row| > 0 && 0 <= row[0] < |idx.questions| ==> r == Ok(idx.questions[row[0]])
  {
    TopHit(idx.questions, search(idx.embeddings, embed(prompt), StrictSearchK))
  }

  /** `basic_faiss_search` of the hybrid variant: a k=1 search. */
  function BasicFaissSearch<V>(idx: VectorIndex<V>, embed: string -> V,
                               search: (seq<V>, V, nat) -> seq<int>, prompt: string): (r: Result<QA, SearchError>)
    ensures idx.questions == [] ==> r == Err(IndexError)
    ensures r.Ok? ==> r.value in idx.questions
    ensures var row := search(idx.embeddings, embed(prompt), BasicSearchK);
            |row| > 0 && 0 <= row[0] < |idx.questions| ==> r == Ok(idx.questions[row[0]])
  {
    TopHit(idx.questions, search(idx.embeddings, embed(prompt), BasicSearchK))
  }

  /** When the index ranks first a stored vector equal to the query's (a
      distance of 0), the record returned is one whose question embeds to the
      query's embedding: an aligned index maps the position back to the
      record the vector was computed from. */
  lemma ExactMatchRetrieved<V>(idx: VectorIndex<V>, embed: string -> V,
                                   search: (seq<V>, V, nat) -> seq<int>, prompt: string)
    requires Aligned(idx, embed)
    requires |search(idx.embeddings, embed(prompt), StrictSearchK)| > 0
    requires 0 <= search(idx.embeddings, embed(prompt), StrictSearchK)[0] < |idx.embeddings|
    requires idx.embeddings[search(idx.embeddings, embed(prompt), StrictSearchK)[0]] == embed(prompt)
    ensures SearchSimilarQuestion(idx, embed, search, prompt).Ok?
    ensures embed(SearchSimilarQuestion(idx, embed, search, prompt).value.question) == embed(prompt)
  {
    var p := search(idx.embeddings, embed(prompt), StrictSearchK)[0];
    assert idx.embeddings[p] == embed(idx.questions[p].question);
  }

  /** Over the index the guarded loop builds, `basic_faiss_search` only ever
      returns a record with a non-empty question. */
  lemma BasicSearchHasQuestion<V>(src: RawSource, idx: VectorIndex<V>, embed: string -> V,
                                      search: (seq<V>, V, nat) -> seq<int>, prompt: string)
    requires idx.questions == GuardedRecords(src)
    ensures BasicFaissSearch(idx, embed, search, prompt).Ok? ==>
              BasicFaissSearch(idx, embed, search, prompt).value.question != ""
  {
    if BasicFaissSearch(idx, embed, search, prompt).Ok? {
      var qa := BasicFaissSearch(idx, embed, search, prompt).value;
      var i :| 0 <= i < |idx.questions| && idx.questions[i] == qa;
    }
  }

  // ------------------------------------------------- the flat-list variant

  /** `[qa["question"] for qa in qa_data]` over a flat list of pairs. */
  function ProjectQuestions(qaData: seq<RawQA>): (r: Result<seq<string>, MissingKey>)
    ensures r.Ok? <==> forall i :: 0 <= i < |qaData| ==> qaData[i].question.Some?
    ensures r.Ok? ==> |r.value| == |qaData| &&
                      forall i :: 0 <= i < |qaData| ==> r.value[i] == qaData[i].question.value
  {
    if qaData == [] then Ok([])
    else match ProjectQuestions(qaData[..|qaData| - 1])
      case Err(e) => Err(e)
      case Ok(prev) =>
        var last := qaData[|qaData| - 1];
        if last.question.None? then Err(MissingKey("question")) else Ok(prev + [last.question.value])
  }

  /** The result record of the flat-list `search_similar_question`. */
  datatype RetrievalResult<D> = RetrievalResult(question: string, answer: string, distance: D)

  /** A k=1 search; question, answer and distance are read at the position
      the index ranked first, the answer from `qa_data` itself. */
  function FlatSearch<V, D>(qaData: seq<RawQA>, questions: seq<string>, embeddings: seq<V>,
                            embed: string -> V, search: (seq<V>, V, nat) -> (seq<D>, seq<int>),
                            prompt: string): (r: Result<RetrievalResult<D>, SearchError>)
    ensures r.Ok? ==> r.value.question in questions
  {
    var (distances, indices) := search(embeddings, embed(prompt), FlatSearchK);
    if |indices| == 0 then Err(IndexError)
    else
      var j := indices[0];
      match PyIndex(questions, j)
      case Err(e) => Err(e)
      case Ok(question) =>
        match PyIndex(qaData, j)
        case Err(e) => Err(e)
        case Ok(raw) =>
          if raw.answer.None? then Err(KeyError("answer"))
          else match PyIndex(distances, 0)
            case Err(e) => Err(e)
            case Ok(distance) => Ok(RetrievalResult(question, raw.answer.value, distance))
  }

  /** With `questions` projected from `qa_data`, the question, the answer and
      the distance of the result all come from the one position the index
      ranked first. */
  lemma FlatSearchSamePosition<V, D>(qaData: seq<RawQA>, questions: seq<string>, embeddings: seq<V>,
                                     embed: string -> V, search: (seq<V>, V, nat) -> (seq<D>, seq<int>),
                                     prompt: string)
    requires ProjectQuestions(qaData) == Ok(questions)
    requires |search(embeddings, embed(prompt), FlatSearchK).1| > 0
    requires 0 <= search(embeddings, embed(prompt), FlatSearchK).1[0] < |qaData|
    requires qaData[search(embeddings, embed(prompt), FlatSearchK).1[0]].answer.Some?
    requires |search(embeddings, embed(prompt), FlatSearchK).0| > 0
    ensures var (distances, indices) := search(embeddings, embed(prompt), FlatSearchK);
            var j := indices[0];
            FlatSearch(qaData, questions, embeddings, embed, search, prompt)
              == Ok(RetrievalResult(qaData[j].question.value, qaData[j].answer.value, distances[0]))
  {
  }
}
