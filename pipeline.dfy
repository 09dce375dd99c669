/** The answer pipelines: retrieval of the closest stored record, then one
    or two chat requests. The hybrid variant searches the strict index of the
    Together chatbot (whose `search_similar_question` it imports) and uses its
    own `generate_enhanced_answer`; the monitoring dashboard has its own
    strict index and its own generator. */
module Pipeline {
  import opened Faq
  import opened Loading
  import opened Retrieval
  import opened Prompting

  /** `generate_enhanced_answer` of the Together chatbot. */
  function TogetherAnswer(complete: ChatRequest -> string, prompt: string, context: string): string {
    Generate(complete, TogetherRequest(prompt, context))
  }

  /** The Together chatbot's answer is the stripped reply to a request whose
      system message is exactly the context and user message exactly the
      prompt. */
  lemma TogetherAnswerOfInputs(complete: ChatRequest -> string, prompt: string, context: string)
    ensures TogetherRequest(prompt, context).messages == [Message(System, context), Message(User, prompt)]
    ensures exists i :: StrippedAt(complete(TogetherRequest(prompt, context)), TogetherAnswer(complete, prompt, context), i)
  {
    assert TogetherAnswer(complete, prompt, context) == Generate(complete, TogetherRequest(prompt, context));
    GenerateIsStripped(complete, TogetherRequest(prompt, context));
  }

  /** The two kinds of value the re-rank step can meet: a string, or a list
      of candidate records. */
  datatype PyValue = PyStr(s: string) | PyList(items: seq<QA>)

  /** `v if isinstance(v, list) else []` */
  function ListOrEmpty(v: PyValue): seq<QA> {
    match v
    case PyList(items) => items
    case PyStr(_) => []
  }

  /** `re_rank_results(query, results)`: the reply, stripped, kept only if it
      is a list. `show` renders the candidate list into the prompt. */
  function ReRankResults(complete: ChatRequest -> string, show: seq<QA> -> string,
                         query: string, results: seq<QA>): seq<QA> {
    ListOrEmpty(PyStr(Generate(complete, ReRankRequest(query, show(results)))))
  }

  /** `strip()` always returns a string, so the list check never passes and
      re-ranking yields nothing, whatever the backend answers. */
  lemma ReRankNeverAccepts(complete: ChatRequest -> string, show: seq<QA> -> string,
                           query: string, results: seq<QA>)
    ensures ReRankResults(complete, show, query, results) == []
  {
  }

  /** The last step of `hybrid_search`: the first re-ranked record's answer
      if there is one, else the enhanced answer. */
  function SelectAnswer(reRanked: seq<QA>, enhanced: string): string {
    if reRanked != [] then reRanked[0].answer else enhanced
  }

  /** `hybrid_search(prompt)`; an `IndexError` of the search is the error. */
  function HybridSearch<V>(idx: VectorIndex<V>, embed: string -> V, search: (seq<V>, V, nat) -> seq<int>,
                           complete: ChatRequest -> string, show: seq<QA> -> string,
                           prompt: string): Result<string, SearchError> {
    match SearchSimilarQuestion(idx, embed, search, prompt)
    case Err(e) => Err(e)
    case Ok(initialMatch) =>
      var enhanced := Generate(complete, HybridRequest(prompt, initialMatch.answer));
      var reRanked := ReRankResults(complete, show, prompt, [initialMatch]);
      Ok(SelectAnswer(reRanked, enhanced))
  }

  /** The hybrid search fails exactly when the search does, and otherwise
      always returns the enhanced answer written from the top-ranked record's
      answer: the re-ranked branch is never taken. */
  lemma HybridSearchFallsBack<V>(idx: VectorIndex<V>, embed: string -> V, search: (seq<V>, V, nat) -> seq<int>,
                                 complete: ChatRequest -> string, show: seq<QA> -> string, prompt: string)
    ensures HybridSearch(idx, embed, search, complete, show, prompt).Ok?
        <==> SearchSimilarQuestion(idx, embed, search, prompt).Ok?
    ensures HybridSearch(idx, embed, search, complete, show, prompt).Ok? ==>
              HybridSearch(idx, embed, search, complete, show, prompt).value
                == Generate(complete, HybridRequest(prompt, SearchSimilarQuestion(idx, embed, search, prompt).value.answer))
  {
    match SearchSimilarQuestion(idx, embed, search, prompt)
    case Err(_) =>
    case Ok(m) => ReRankNeverAccepts(complete, show, prompt, [m]);
  }

  /** Whatever the search returns, the hybrid answer was generated from a
      request whose system message carries the answer of a stored record and
      whose user message carries the prompt, both recoverable verbatim. */
  lemma HybridSearchGroundedInStore<V>(idx: VectorIndex<V>, embed: string -> V, search: (seq<V>, V, nat) -> seq<int>,
                                       complete: ChatRequest -> string, show: seq<QA> -> string, prompt: string)
    ensures HybridSearch(idx, embed, search, complete, show, prompt).Ok? ==>
              exists qa :: qa in idx.questions &&
                HybridSearch(idx, embed, search, complete, show, prompt).value == Generate(complete, HybridRequest(prompt, qa.answer)) &&
                HybridInputsOf(HybridRequest(prompt, qa.answer)) == Some((qa.answer, prompt))
  {
    HybridSearchFallsBack(idx, embed, search, complete, show, prompt);
    if HybridSearch(idx, embed, search, complete, show, prompt).Ok? {
      var qa := SearchSimilarQuestion(idx, embed, search, prompt).value;
      HybridRequestRoundTrip(prompt, qa.answer);
    }
  }

  /** `chatbot(prompt)` of the monitoring dashboard. */
  function Chatbot<V>(idx: VectorIndex<V>, embed: string -> V, search: (seq<V>, V, nat) -> seq<int>,
                      complete: ChatRequest -> string, prompt: string): Result<string, SearchError> {
    match SearchSimilarQuestion(idx, embed, search, prompt)
    case Err(e) => Err(e)
    case Ok(faq) => Ok(Generate(complete, MonitoringRequest(prompt, faq.answer)))
  }

  /** The generator receives exactly the retrieved record's answer as its
      context and the unchanged prompt; the reply comes back stripped. */
  lemma ChatbotPassesRetrievedAnswer<V>(idx: VectorIndex<V>, embed: string -> V, search: (seq<V>, V, nat) -> seq<int>,
                                        complete: ChatRequest -> string, prompt: string)
    ensures Chatbot(idx, embed, search, complete, prompt).Ok? <==> SearchSimilarQuestion(idx, embed, search, prompt).Ok?
    ensures Chatbot(idx, embed, search, complete, prompt).Ok? ==>
              var faq := SearchSimilarQuestion(idx, embed, search, prompt).value;
              var req := MonitoringRequest(prompt, faq.answer);
              MonitoringInputsOf(req) == Some((faq.answer, prompt)) &&
              Chatbot(idx, embed, search, complete, prompt).value == Strip(complete(req)) &&
              Strip(Chatbot(idx, embed, search, complete, prompt).value) == Chatbot(idx, embed, search, complete, prompt).value
  {
    if SearchSimilarQuestion(idx, embed, search, prompt).Ok? {
      var faq := SearchSimilarQuestion(idx, embed, search, prompt).value;
      MonitoringRequestRoundTrip(prompt, faq.answer);
      GenerateIsStripped(complete, MonitoringRequest(prompt, faq.answer));
    }
  }

  /** Two stores whose top-ranked records carry the same answer give the
      same chatbot reply: the question text and the rest of the store do not
      reach the generator. */
  lemma ChatbotDependsOnlyOnAnswer<V>(idx1: VectorIndex<V>, idx2: VectorIndex<V>, embed: string -> V,
                                      search: (seq<V>, V, nat) -> seq<int>, complete: ChatRequest -> string, prompt: string)
    requires SearchSimilarQuestion(idx1, embed, search, prompt).Ok?
    requires SearchSimilarQuestion(idx2, embed, search, prompt).Ok?
    requires SearchSimilarQuestion(idx1, embed, search, prompt).value.answer
          == SearchSimilarQuestion(idx2, embed, search, prompt).value.answer
    ensures Chatbot(idx1, embed, search, complete, prompt) == Chatbot(idx2, embed, search, complete, prompt)
  {
  }
}
