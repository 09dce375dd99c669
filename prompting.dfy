/** Building the chat request each answer generator sends, and reading its
    reply. The chat backend is a function `complete: ChatRequest -> string`
    giving the content of the first choice; the answer is that content with
    surrounding whitespace removed, as `str.strip()` does. */
module Prompting {
  import opened Faq

  datatype Role = System | User

  datatype Message = Message(role: Role, content: string)

  /** The model name, the ordered messages, and the `max_tokens` and
      `temperature` arguments (None where the call leaves them out). */
  datatype ChatRequest = ChatRequest(model: string, messages: seq<Message>,
                                     maxTokens: Option<nat>, temperature: Option<real>)

  // ------------------------------------------------------------ str.strip()

  /** The characters for which Python's `str.isspace()` holds. */
  predicate IsSpace(c: char) {
    c == ' ' || ('\t' <= c <= '\r') || ('\U{1C}' <= c <= '\U{1F}') ||
    c == '\U{85}' || c == '\U{A0}' || c == '\U{1680}' || ('\U{2000}' <= c <= '\U{200A}') ||
    c == '\U{2028}' || c == '\U{2029}' || c == '\U{202F}' || c == '\U{205F}' || c == '\U{3000}'
  }

  /** `s` without its leading whitespace. */
  function TrimStart(s: string): (r: string)
    ensures |r| <= |s| && r == s[|s| - |r|..]
    ensures forall k :: 0 <= k < |s| - |r| ==> IsSpace(s[k])
    ensures r != [] ==> !IsSpace(r[0])
  {
    if s != [] && IsSpace(s[0]) then TrimStart(s[1..]) else s
  }

  /** `s` without its trailing whitespace. */
  function TrimEnd(s: string): (r: string)
    ensures |r| <= |s| && r == s[..|r|]
    ensures forall k :: |r| <= k < |s| ==> IsSpace(s[k])
    ensures r != [] ==> !IsSpace(r[|r| - 1])
  {
    if s != [] && IsSpace(s[|s| - 1]) then TrimEnd(s[..|s| - 1]) else s
  }

  /** `r` is `s[i..i + |r|]` with only whitespace around it in `s`. */
  predicate StrippedAt(s: string, r: string, i: nat) {
    i + |r| <= |s| && r == s[i..i + |r|] &&
    (forall k :: 0 <= k < i ==> IsSpace(s[k])) &&
    (forall k :: i + |r| <= k < |s| ==> IsSpace(s[k]))
  }

  /** `s.strip()`: the middle part of `s`, everything around it whitespace,
      neither of its ends whitespace. */
  function Strip(s: string): (r: string)
    ensures r != [] ==> !IsSpace(r[0]) && !IsSpace(r[|r| - 1])
    ensures exists i :: StrippedAt(s, r, i)
  {
    var t := TrimStart(s);
    var r := TrimEnd(t);
    assert StrippedAt(s, r, |s| - |t|);
    r
  }

  predicate AllSpace(s: string) {
    forall k :: 0 <= k < |s| ==> IsSpace(s[k])
  }

  lemma {:induction false} TrimStartSkipsSpace(pre: string, s: string)
    requires AllSpace(pre) && (s == [] || !IsSpace(s[0]))
    ensures TrimStart(pre + s) == s
  {
    if pre != [] {
      assert (pre + s)[1..] == pre[1..] + s;
      TrimStartSkipsSpace(pre[1..], s);
    } else {
      assert pre + s == s;
    }
  }

  lemma {:induction false} TrimEndSkipsSpace(s: string, post: string)
    requires AllSpace(post) && (s == [] || !IsSpace(s[|s| - 1]))
    ensures TrimEnd(s + post) == s
  {
    if post != [] {
      assert (s + post)[..|s + post| - 1] == s + post[..|post| - 1];
      TrimEndSkipsSpace(s, post[..|post| - 1]);
    } else {
      assert s + post == s;
    }
  }

  /** Whitespace around a text whose ends are not whitespace is exactly what
      `strip` removes. */
  lemma StripSurrounded(pre: string, s: string, post: string)
    requires AllSpace(pre) && AllSpace(post)
    requires s != [] ==> !IsSpace(s[0]) && !IsSpace(s[|s| - 1])
    ensures Strip(pre + s + post) == s
  {
    if s == [] {
      assert pre + s + post == pre + post;
      assert AllSpace(pre + post);
      TrimStartSkipsSpace(pre + post, []);
      assert pre + post + [] == pre + post;
    } else {
      assert pre + s + post == pre + (s + post);
      TrimStartSkipsSpace(pre, s + post);
      TrimEndSkipsSpace(s, post);
    }
  }

  /** Stripping twice is stripping once. */
  lemma StripIdempotent(s: string)
    ensures Strip(Strip(s)) == Strip(s)
  {
    var r := Strip(s);
    assert TrimStart(r) == r;
    assert TrimEnd(r) == r;
  }

  /** The answer a generator returns: the first choice's content, stripped. */
  function Generate(complete: ChatRequest -> string, req: ChatRequest): string {
    Strip(complete(req))
  }

  /** A generated answer is the reply with only surrounding whitespace
      removed, and stripping it again changes nothing. */
  lemma GenerateIsStripped(complete: ChatRequest -> string, req: ChatRequest)
    ensures exists i :: StrippedAt(complete(req), Generate(complete, req), i)
    ensures Strip(Generate(complete, req)) == Generate(complete, req)
  {
    assert Generate(complete, req) == Strip(complete(req));
    StripIdempotent(complete(req));
  }

  // ----------------------------------------------- rag_nomad_foods_chatbot.py

  const TogetherModel := "mistralai/Mixtral-8x7B-Instruct-v0.1"

  /** The raw context as the system message, the raw prompt as the user
      message; no token limit or temperature is passed. */
  function TogetherRequest(prompt: string, context: string): ChatRequest {
    ChatRequest(TogetherModel, [Message(System, context), Message(User, prompt)], None, None)
  }

  lemma TogetherRequestCarriesInputs(prompt: string, context: string)
    ensures |TogetherRequest(prompt, context).messages| == 2
    ensures TogetherRequest(prompt, context).messages[0] == Message(System, context)
    ensures TogetherRequest(prompt, context).messages[1] == Message(User, prompt)
    ensures TogetherRequest(prompt, context).maxTokens.None? && TogetherRequest(prompt, context).temperature.None?
  {
  }

  // ------------------------------- rag_nomad_foods_hybrid_re_rank_re_write.py

  const MistralModel := "mistral-large-latest"

  const HybridSystemBefore :=
    "You are a friendly and helpful customer service representative at NomadFoods company. \n" +
    "    Your responses should be warm, natural, and conversational while being informative.\n" +
    "    Use the following context to answer the question.\n" +
    "\n" +
    "    Context: "
  const HybridSystemAfter := "\n    "

  const HybridUserBefore := "Answer this question in a friendly, conversational way: "
  const HybridUserAfter :=
    "\n" +
    "    Make sure to:\n" +
    "    1. Start with a small warm greeting or acknowledgment.\n" +
    "    2. Use natural transitions and conversational language.\n" +
    "    3. Organize information in an easy-to-understand way.\n" +
    "    4. End with an offer to help further if needed.\n" +
    "    "

  /** The hybrid variant's `generate_enhanced_answer` request: the system
      template with `{context}` filled in by `str.format`, and the prompt
      inside the fixed instructions. */
  function HybridRequest(prompt: string, context: string): ChatRequest
  {
    ChatRequest(MistralModel,
                [Message(System, HybridSystemBefore + context + HybridSystemAfter),
                 Message(User, HybridUserBefore + prompt + HybridUserAfter)],
                Some(500), Some(0.7))
  }

  /** The text between two fixed literals, if `s` is framed by them. */
  function Between(s: string, before: string, after: string): Option<string> {
    if |before| + |after| <= |s| && s[..|before|] == before && s[|s| - |after|..] == after
    then Some(s[|before|..|s| - |after|])
    else None
  }

  lemma BetweenInverts(before: string, middle: string, after: string)
    ensures Between(before + middle + after, before, after) == Some(middle)
  {
    var s := before + middle + after;
    assert s[..|before|] == before;
    assert s[|s| - |after|..] == after;
    assert s[|before|..|s| - |after|] == middle;
  }

  /** The context and the prompt as they can be read back from a request's
      system and user messages. */
  function HybridInputsOf(req: ChatRequest): Option<(string, string)> {
    if |req.messages| == 2 && req.messages[0].role == System && req.messages[1].role == User then
      match (Between(req.messages[0].content, HybridSystemBefore, HybridSystemAfter),
             Between(req.messages[1].content, HybridUserBefore, HybridUserAfter))
      case (Some(context), Some(prompt)) => Some((context, prompt))
      case _ => None
    else None
  }

  /** The system message embeds the context and the user message the prompt,
      both verbatim: they can be read back. */
  lemma HybridRequestRoundTrip(prompt: string, context: string)
    ensures HybridInputsOf(HybridRequest(prompt, context)) == Some((context, prompt))
    ensures HybridRequest(prompt, context).maxTokens == Some(500)
    ensures HybridRequest(prompt, context).temperature == Some(0.7)
  {
    BetweenInverts(HybridSystemBefore, context, HybridSystemAfter);
    BetweenInverts(HybridUserBefore, prompt, HybridUserAfter);
  }

  const RankBefore := "Rank the following answers based on relevance to this query: '"
  const RankMiddle := "'. \n    Provide a sorted list, with the most relevant answer first:\n    "

  /** `re_rank_results`' request: one user message holding the query and the
      text of the candidate list. */
  function ReRankRequest(query: string, resultsText: string): ChatRequest {
    ChatRequest(MistralModel, [Message(User, RankBefore + query + RankMiddle + resultsText)], Some(150), Some(0.5))
  }

  /** The ranking request is one user message that quotes the query right
      after the fixed opening and ends with the candidates' text. */
  lemma ReRankRequestShape(query: string, resultsText: string)
    ensures |ReRankRequest(query, resultsText).messages| == 1
    ensures ReRankRequest(query, resultsText).messages[0].role == User
    ensures var m := ReRankRequest(query, resultsText).messages[0].content;
            |RankBefore| + |query| + |RankMiddle| + |resultsText| == |m| &&
            m[..|RankBefore|] == RankBefore &&
            m[|RankBefore|..|RankBefore| + |query|] == query &&
            m[|m| - |resultsText|..] == resultsText
    ensures ReRankRequest(query, resultsText).maxTokens == Some(150)
    ensures ReRankRequest(query, resultsText).temperature == Some(0.5)
  {
    ConcatenationParts(RankBefore, query, RankMiddle + resultsText);
    assert RankBefore + query + RankMiddle + resultsText == RankBefore + query + (RankMiddle + resultsText);
    assert (RankMiddle + resultsText)[|RankMiddle|..] == resultsText;
  }

  lemma ConcatenationParts(a: string, b: string, c: string)
    ensures (a + b + c)[..|a|] == a
    ensures (a + b + c)[|a|..|a| + |b|] == b
    ensures (a + b + c)[|a| + |b|..] == c
  {
  }

  // ---------------------- monitoring/monitoring_streamlit_chatbot_rag_nomad_foods.py

  const MonitoringSystemBefore :=
    "You are a friendly and helpful customer service representative at NomadFoods company. \n" +
    "    Your responses should be warm, natural, and conversational while being informative.\n" +
    "    Use the following context to answer the question, but respond in a natural way as if you're \n" +
    "    having a conversation. Avoid formal phrases like 'Based on the description provided' or \n" +
    "    'Here's a summarized list'. Instead, use more conversational language like 'We at NomadFoods offer' or \n" +
    "    'At NomadFoods, You can find'.\n" +
    "\n" +
    "    Context: "
  const MonitoringSystemAfter := "\n    "

  const MonitoringUserBefore := "Answer this question in a friendly, conversational way: "
  const MonitoringUserAfter :=
    "\n" +
    "    Make sure to:\n" +
    "    1. Start with a small warm greeting or acknowledgment\n" +
    "    2. Use natural transitions and conversational language\n" +
    "    3. Organize information in an easy-to-understand way with bullet points for example\n" +
    "    4. End with an offer to help further if needed\n" +
    "    "

  /** The monitoring dashboard's `generate_enhanced_answer` request, built
      the same way from its own template and instructions. */
  function MonitoringRequest(prompt: string, context: string): ChatRequest
  {
    ChatRequest(MistralModel,
                [Message(System, MonitoringSystemBefore + context + MonitoringSystemAfter),
                 Message(User, MonitoringUserBefore + prompt + MonitoringUserAfter)],
                Some(500), Some(0.7))
  }

  function MonitoringInputsOf(req: ChatRequest): Option<(string, string)> {
    if |req.messages| == 2 && req.messages[0].role == System && req.messages[1].role == User then
      match (Between(req.messages[0].content, MonitoringSystemBefore, MonitoringSystemAfter),
             Between(req.messages[1].content, MonitoringUserBefore, MonitoringUserAfter))
      case (Some(context), Some(prompt)) => Some((context, prompt))
      case _ => None
    else None
  }

  lemma MonitoringRequestRoundTrip(prompt: string, context: string)
    ensures MonitoringInputsOf(MonitoringRequest(prompt, context)) == Some((context, prompt))
    ensures MonitoringRequest(prompt, context).maxTokens == Some(500)
    ensures MonitoringRequest(prompt, context).temperature == Some(0.7)
  {
    BetweenInverts(MonitoringSystemBefore, context, MonitoringSystemAfter);
    BetweenInverts(MonitoringUserBefore, prompt, MonitoringUserAfter);
  }

  // ------------------------------------------------ chatbot_rag_faiss_langchain.py

  const FlatContextPrefix := "Context: "

  /** `generate_enhanced_answer(prompt, context, api_key, temperature=0.7,
      max_tokens=150)`'s request. */
  function FlatRequest(prompt: string, context: string, temperature: real := 0.7, maxTokens: nat := 150): ChatRequest {
    ChatRequest(MistralModel, [Message(System, FlatContextPrefix + context), Message(User, prompt)],
                Some(maxTokens), Some(temperature))
  }

  function FlatInputsOf(req: ChatRequest): Option<(string, string)> {
    if |req.messages| == 2 && req.messages[0].role == System && req.messages[1].role == User then
      match Between(req.messages[0].content, FlatContextPrefix, "")
      case Some(context) => Some((context, req.messages[1].content))
      case None => None
    else None
  }

  /** The context follows `"Context: "` in the system message, the prompt is
      the user message, and the generation parameters pass through; left
      out, they are 0.7 and 150. */
  lemma FlatRequestRoundTrip(prompt: string, context: string, temperature: real, maxTokens: nat)
    ensures FlatInputsOf(FlatRequest(prompt, context, temperature, maxTokens)) == Some((context, prompt))
    ensures FlatRequest(prompt, context, temperature, maxTokens).temperature == Some(temperature)
    ensures FlatRequest(prompt, context, temperature, maxTokens).maxTokens == Some(maxTokens)
    ensures FlatRequest(prompt, context) == FlatRequest(prompt, context, 0.7, 150)
  {
    BetweenInverts(FlatContextPrefix, context, "");
    assert FlatContextPrefix + context + "" == FlatContextPrefix + context;
  }
}
