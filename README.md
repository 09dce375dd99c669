# Nomad Foods FAQ assistant — a Dafny model of its knowledge-base core

The repository is a retrieval-augmented FAQ chatbot for Nomad Foods. A
nested FAQ document (`faq_data -> categories -> questions`) is kept up to
date by an ingestion flow. It is flattened into an ordered list of
`{question, answer}` records, with one embedding per record at the same
position. A query is embedded, the vector index returns the best-ranked
position, and the record at that position supplies the context for a chat
completion. The reply, stripped of surrounding whitespace, is the answer.

This project models that core in Dafny:

- `faq.dfy`: the FAQ document, the flat record list (`Flatten`) and the
  first-match category lookup.
- `ingestion.dfy`: the in-place merge of new entries (`update_faq_file`),
  `add_new_faq`, and the question list `reindex_faq` builds. `FaqDocument`
  is the mutated JSON document.
- `loading.dfy`: the loops that build the parallel `questions`/`embeddings`
  lists. The strict variant raises `KeyError`; the guarded variant skips or
  defaults. JSON input is modelled with absent keys as `None`.
- `retrieval.dfy`: the position lookup after a search, including Python's
  negative indexing and `IndexError`. Also the flat-list variant, which
  returns question, answer and distance.
- `prompting.dfy`: `str.strip()` with Python's whitespace set, and the
  chat requests each generator builds: model, message order, templates and
  generation parameters.
- `pipeline.dfy`: the re-rank validation, the `hybrid_search` fallback and
  the monitoring dashboard's `chatbot`.
- `vectorstore.dfy`: `build_index` of the LangChain agent. The Pinecone
  project is a class whose state is the documents stored per index name.

External services are parameters of the model:

- The sentence embedder is a function `embed: string -> V`.
- The vector index is a function from the stored vectors, a query vector
  and `k` to the first row of FAISS's `indices`; the flat variant also gets
  the first row of `distances`.
- The chat backend is a function `complete: ChatRequest -> string`, giving
  the first choice's content.

Where the design description and the code differ, the model follows the code:

- The design says a re-ranker falls back to the original order when the
  model's text cannot be parsed. `re_rank_results` instead returns `[]` for
  any text. `hybrid_search` then returns the enhanced answer, and the model
  proves it always does so.
- The design names errors such as an empty-index error. The code raises
  Python's `IndexError` and `KeyError`, and the model returns those.
- `hybrid_search` calls `search_similar_question` imported from
  `rag_nomad_foods_chatbot.py`, which is a k=2 search over that module's
  strict index. It calls the hybrid file's own `generate_enhanced_answer`,
  because that definition shadows the imported one.

## Model

| member | source | states |
|---|---|---|
| Faq.Flatten | rag_nomad_foods_chatbot.py:25-30 | the flat record list has exactly one record per stored question |
| Faq.FindCategory | prefect_new_faq_ingestion_pipeline.py:38-47 | the position found is the first category whose name equals the entry's category exactly; none is found iff no category has that name |
| Faq.NamesHasCategory | prefect_new_faq_ingestion_reindexing.py:20 | `any(cat['category'] == name ...)` holds iff the name is among the category names |
| Faq.FlattenAt | rag_nomad_foods_chatbot.py:25-31 | flat position `TotalQuestions(cats[..c]) + k` holds question k of category c, so a position maps back to its source entry |
| Ingestion.MergeEntry | prefect_new_faq_ingestion_pipeline.py:35-57 | after one entry a category with the entry's name exists, and there is at most one more category |
| Ingestion.MergeEntries | prefect_new_faq_ingestion_pipeline.py:33-58 | categories are never removed and at most one is added per entry; the last entry's category exists afterwards |
| Ingestion.Pairs | prefect_new_faq_ingestion_pipeline.py:41-44 | each entry contributes its `{question, answer}` pair without the category, in entry order |
| Ingestion.MergeEntryIntoFirstMatch | prefect_new_faq_ingestion_pipeline.py:39-47 | with a first matching category at i, only category i changes: its name is kept and the pair is appended at the end of its questions |
| Ingestion.MergeEntryNovel | prefect_new_faq_ingestion_pipeline.py:50-57 | with no matching category, exactly one category holding the single pair is appended at the end |
| Ingestion.MergeEntryCounts | prefect_new_faq_ingestion_pipeline.py:33-58 | one entry adds one question, adds a category iff none matched, and adds exactly its pair to the multiset of records |
| Ingestion.MergeEntryNames | prefect_new_faq_ingestion_pipeline.py:39-57 | after one entry the category names are the old names plus the entry's category |
| Ingestion.MergeEntriesTotal | prefect_new_faq_ingestion_pipeline.py:33-58 | the total question count grows by exactly the number of entries |
| Ingestion.MergeEntriesNames | prefect_new_faq_ingestion_pipeline.py:33-58 | the category names afterwards are the old names plus the entries' categories |
| Ingestion.MergeEntriesCategoryCount | prefect_new_faq_ingestion_pipeline.py:33-58 | the category count grows by exactly the number of distinct entry categories not already present |
| Ingestion.MergeEntriesOnlyAppends | prefect_new_faq_ingestion_pipeline.py:41-51 | existing categories keep their position and name, and their old questions remain a prefix of their new ones |
| Ingestion.MergeEntriesRecords | prefect_new_faq_ingestion_pipeline.py:33-58 | the stored records afterwards are the old ones plus every entry's pair, as a multiset |
| Ingestion.MergeEntriesKeepsNamesDistinct | prefect_new_faq_ingestion_pipeline.py:33-58 | a document with distinct category names keeps them distinct: no duplicate category is ever created |
| Ingestion.SameNovelCategoryTwice | prefect_new_faq_ingestion_pipeline.py:33-38 | two entries of the same new category yield one new category with both pairs in order |
| Ingestion.AddNewFaqIsMergeEntry | prefect_new_faq_ingestion_reindexing.py:18-30 | `AddNewFaqResult`: appending an empty category when absent and then appending to the first match equals merging the single entry |
| Ingestion.AddNewFaqCounts | prefect_new_faq_ingestion_reindexing.py:18-30 | `AddNewFaqResult`: afterwards the category exists, there is one more question, one more category iff it was absent, and old categories are only extended |
| Ingestion.ReindexQuestions | prefect_new_faq_ingestion_reindexing.py:37 | the re-indexed question list has one entry per stored question |
| Ingestion.ReindexQuestionsMatchRecords | prefect_new_faq_ingestion_reindexing.py:37 | entry i of the re-indexed question list is the question of flat record i |
| Ingestion.FaqDocument.UpdateFaqFile | prefect_new_faq_ingestion_pipeline.py:33-58 | the nested loop with its found flag and break leaves the document equal to folding the entries in order through the merge |
| Ingestion.FaqDocument.AddNewFaq | prefect_new_faq_ingestion_reindexing.py:18-30 | the same document object is updated and returned, holding the single-entry merge |
| Loading.StrictPairs | rag_nomad_foods_chatbot.py:27-30 | on success one record per pair; the only error keys are `question` and `answer` |
| Loading.StrictCategories | rag_nomad_foods_chatbot.py:26-30 | the only error keys are `questions`, `question` and `answer` |
| Loading.StrictRecords | rag_nomad_foods_chatbot.py:25-30 | the only error keys are the four keys the loop reads |
| Loading.StrictRecordsOkIff | rag_nomad_foods_chatbot.py:25-30 | the strict load succeeds iff every key it reads is present |
| Loading.StrictRecordsOfSource | rag_nomad_foods_chatbot.py:25-30 | loading a document gives exactly its records in category then question order, category dropped |
| Loading.GuardedPairs | rag_nomad_foods_hybrid_re_rank_re_write.py:29-35 | no more records than pairs, and every kept question is non-empty |
| Loading.GuardedPairsKeepAsked | rag_nomad_foods_hybrid_re_rank_re_write.py:29-36 | the guarded pair loop gives exactly the pairs read with `''` for an absent key, minus those whose question is empty, in order: nothing with a question is dropped |
| Loading.GuardedCategories | rag_nomad_foods_hybrid_re_rank_re_write.py:27-35 | every kept question is non-empty, across all categories |
| Loading.GuardedCategoriesKeepAsked | rag_nomad_foods_hybrid_re_rank_re_write.py:27-36 | the guarded category loop gives exactly the defaulted pairs of the categories that have `questions`, minus those whose question is empty, in order |
| Loading.GuardedSkipsCategoryWithoutQuestions | rag_nomad_foods_hybrid_re_rank_re_write.py:28 | a category without `questions` contributes nothing: removing it leaves the result unchanged |
| Loading.GuardedRecordsKeepAsked | rag_nomad_foods_hybrid_re_rank_re_write.py:26-36 | `GuardedRecords`: no `faq_data` gives no records; otherwise exactly the kept defaulted pairs of its categories |
| Loading.GuardedRecordsOfSource | rag_nomad_foods_hybrid_re_rank_re_write.py:26-36 | on a document the guarded load keeps exactly the records with a non-empty question, in order |
| Loading.GuardedAgreesWithStrict | rag_nomad_foods_hybrid_re_rank_re_write.py:26-36 | where the strict load succeeds and no question is empty, the guarded load gives the same records |
| Loading.BuildStrictIndex | rag_nomad_foods_chatbot.py:25-31 | the loop raises exactly the strict load's `KeyError`, else builds exactly its records with one embedding of record i's question at position i |
| Loading.BuildGuardedIndex | rag_nomad_foods_hybrid_re_rank_re_write.py:26-36 | the loop keeps exactly the guarded records, with embeddings at the same positions |
| Retrieval.PyIndex | rag_nomad_foods_chatbot.py:44-47 | list indexing succeeds iff `-len <= i < len`, returns an element of the list: the element at i for a non-negative i and the element at `len + i` for a negative one |
| Retrieval.TopHit | rag_nomad_foods_chatbot.py:43-47 | an empty record list or an empty result row always raises; a hit is a stored record; a top position in range gives the record at that position, and a negative one in `-len..-1` the record counted from the end |
| Retrieval.SearchSimilarQuestion | rag_nomad_foods_chatbot.py:38-47 | a k=2 search whose result is always a stored record, and the record at the top-ranked position when that position is in range; an empty index raises `IndexError` |
| Retrieval.BasicFaissSearch | rag_nomad_foods_hybrid_re_rank_re_write.py:43-52 | a k=1 search whose result is always a stored record, and the record at the top-ranked position when that position is in range; an empty index raises `IndexError` |
| Retrieval.ExactMatchRetrieved | monitoring/monitoring_streamlit_chatbot_rag_nomad_foods.py:60-69 | over an aligned index, a top hit whose vector equals the query's is a record whose question embeds to the query's vector |
| Retrieval.BasicSearchHasQuestion | rag_nomad_foods_hybrid_re_rank_re_write.py:43-52 | over the guarded index, the basic search never returns a record with an empty question |
| Retrieval.ProjectQuestions | chatbot_rag_faiss_langchain.py:19 | the projection succeeds iff every pair has a question, and then has the same length with element i the question of pair i |
| Retrieval.FlatSearch | chatbot_rag_faiss_langchain.py:28-38 | the returned question is one of the projected questions |
| Retrieval.FlatSearchSamePosition | chatbot_rag_faiss_langchain.py:33-38 | question, answer and distance all come from the top-ranked position j, the answer read from `qa_data[j]` |
| Prompting.TrimStart | rag_nomad_foods_chatbot.py:63 | a suffix of the input; everything removed is whitespace and what is left does not start with whitespace |
| Prompting.TrimEnd | rag_nomad_foods_chatbot.py:63 | a prefix of the input; everything removed is whitespace and what is left does not end with whitespace |
| Prompting.Strip | rag_nomad_foods_chatbot.py:63 | a contiguous part of the input with only whitespace around it, neither end of which is whitespace |
| Prompting.StripSurrounded | rag_nomad_foods_chatbot.py:63 | whitespace around a text whose ends are not whitespace is removed, and the text is returned unchanged |
| Prompting.StripIdempotent | rag_nomad_foods_chatbot.py:63 | stripping a stripped reply changes nothing |
| Prompting.GenerateIsStripped | monitoring/monitoring_streamlit_chatbot_rag_nomad_foods.py:107 | a generated answer is the first choice's content with only surrounding whitespace removed |
| Prompting.TogetherRequestCarriesInputs | rag_nomad_foods_chatbot.py:54-61 | `TogetherRequest`: exactly two messages, system with the raw context then user with the raw prompt, and no token limit or temperature |
| Prompting.HybridRequestRoundTrip | rag_nomad_foods_hybrid_re_rank_re_write.py:57-87 | `HybridRequest`: the context and the prompt can be read back verbatim from the system and user messages; 500 tokens, temperature 0.7 |
| Prompting.ReRankRequestShape | rag_nomad_foods_hybrid_re_rank_re_write.py:93-101 | `ReRankRequest`: a single user message quoting the query after the fixed opening and ending with the candidates' text; 150 tokens, temperature 0.5 |
| Prompting.MonitoringRequestRoundTrip | monitoring/monitoring_streamlit_chatbot_rag_nomad_foods.py:74-105 | `MonitoringRequest`: the context and the prompt can be read back verbatim from the system and user messages; 500 tokens, temperature 0.7 |
| Prompting.FlatRequestRoundTrip | chatbot_rag_faiss_langchain.py:41-56 | `FlatRequest`: the context follows `"Context: "` in the system message, the prompt is the user message, and the parameters pass through with defaults 0.7 and 150 |
| Pipeline.TogetherAnswerOfInputs | rag_nomad_foods_chatbot.py:52-63 | `TogetherAnswer`: the answer is the stripped reply to the request `[system: context, user: prompt]` |
| Pipeline.ReRankNeverAccepts | rag_nomad_foods_hybrid_re_rank_re_write.py:90-106 | `ReRankResults`: whatever the backend replies, re-ranking returns `[]` |
| Pipeline.HybridSearchFallsBack | rag_nomad_foods_hybrid_re_rank_re_write.py:109-122 | `HybridSearch`: the hybrid search fails iff the search does, and otherwise always returns the enhanced answer built from the top record's answer |
| Pipeline.HybridSearchGroundedInStore | rag_nomad_foods_hybrid_re_rank_re_write.py:109-122 | a hybrid answer was generated from a request carrying a stored record's answer and the prompt, both verbatim |
| Pipeline.ChatbotPassesRetrievedAnswer | monitoring/monitoring_streamlit_chatbot_rag_nomad_foods.py:110-118 | `Chatbot`: the generator gets exactly the retrieved record's answer and the unchanged prompt, and the reply comes back stripped |
| Pipeline.ChatbotDependsOnlyOnAnswer | monitoring/monitoring_streamlit_chatbot_rag_nomad_foods.py:110-118 | two stores whose top records carry the same answer give the same reply |
| VectorStore.DocumentsOf | rag_nomad_foods_chatbot_langchain.py:59-62 | one document per record in order, with `doc_id` and `text` the question and the answer as metadata |
| VectorStore.SourceDocumentsOfCategories | rag_nomad_foods_chatbot_langchain.py:55-63 | `SourceDocuments`: a document yields exactly one FAQ document per question, in category then question order |
| VectorStore.BuildDocuments | rag_nomad_foods_chatbot_langchain.py:55-63 | the nested loop builds exactly the documents of the strict records and raises the same `KeyError` |
| VectorStore.BuildIndexState | rag_nomad_foods_chatbot_langchain.py:35-69 | after a build the configured index always exists |
| VectorStore.BuildIndexCreatesOnce | rag_nomad_foods_chatbot_langchain.py:38-54 | an index is created only when its name is absent, other indexes are untouched, and a non-empty index is left as it is |
| VectorStore.BuildIndexIngestsWhenEmpty | rag_nomad_foods_chatbot_langchain.py:38-68 | a new or empty index receives exactly the source's documents, or stays empty when reading raises |
| VectorStore.BuildIndexIdempotent | rag_nomad_foods_chatbot_langchain.py:35-69 | building a second time changes nothing and has the same outcome |
| VectorStore.PineconeProject.BuildIndex | rag_nomad_foods_chatbot_langchain.py:35-69 | the method's create-if-absent and ingest-if-empty steps leave exactly the state the build function describes |

## Left out

- Embedding computation, FAISS `IndexFlatL2`/`IndexHNSWFlat` distances and the Elasticsearch script are foreign floating-point code. They are function parameters here, and distances are opaque values.
- FAISS `add` on the collected embeddings is not modelled, including its failure on an empty matrix. The index is the pair of parallel lists.
- The chat backends (Together, Mistral, OpenRouter) and the LangChain agent with its web-search tool are network calls. The backend is a function parameter, and its failures are not modelled.
- `vectorize` in `prefect_new_faq_ingestion_reindexing.py` returns random vectors. It is left out, and `reindex_faq` is modelled only by its question list.
- File and database I/O are left out: JSON read and write, `read_new_faq_entries`, `load_faq_data`/`save_faq_data`, PostgreSQL setup and feedback inserts.
- Prefect task and flow decorators, and the Streamlit user interface, are plumbing and are left out.
- `rag_financial_chatbot.py` is only Elasticsearch client calls and is not part of this model.
- JSON values other than strings, lists and objects (for example `null` or numbers where strings are expected) are not modelled. For the loaders an absent key is the only malformation.
- The monitoring dashboard's flatten loop is the same code as the Together chatbot's. Both are modelled by `Loading.BuildStrictIndex`, and both search with `Retrieval.SearchSimilarQuestion`.
- Python dictionaries are values here. Aliasing between the category objects of `faq_data` is not modelled.
- Pinecone's vector ids, LlamaIndex chunking and upsert-by-id overwriting are not modelled. An index stores the document list it was given.
- The text of the candidate list inside the re-rank prompt is Python's `repr` of a list of dicts. It is a parameter `show`.
- `str.format` on the system templates is written as concatenation. Each template holds one `{context}` field and no other braces.
- Ingestion.MergeEntry, Ingestion.FaqDocument.UpdateFaqFile, Ingestion.FaqDocument.AddNewFaq: the new entries and the stored categories are assumed to carry every key they read (`category`, `question`, `answer`, `questions`). The `KeyError`s at prefect_new_faq_ingestion_pipeline.py:35, 39, 41, 43 and 55 and prefect_new_faq_ingestion_reindexing.py:20 and 26 are not modelled. Since the file is written only after the loop, such an error leaves the stored file unchanged. The flow's progress logging with `print` is left out too.
- Retrieval.FlatSearch: its own contract only says that the question is one of the projected questions. The full statement that all three fields come from one position is `Retrieval.FlatSearchSamePosition`.
