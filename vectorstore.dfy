/** `build_index` of the LangChain agent: the Pinecone project is state
    holding, per index name, the documents stored in it; the index is
    created when its name is absent, and the FAQ documents are ingested when
    the store is empty. */
module VectorStore {
  import opened Faq
  import opened Loading

  /** `{doc_id, text, metadata: {answer}}` */
  datatype Document = Document(docId: string, text: string, answer: string)

  /** One document per record, in record order, keyed and worded by the
      question and carrying the answer as metadata. */
  function DocumentsOf(rs: seq<QA>): (r: seq<Document>)
    ensures |r| == |rs|
    ensures forall i :: 0 <= i < |rs| ==>
              r[i].docId == rs[i].question && r[i].text == rs[i].question && r[i].answer == rs[i].answer
  {
    seq(|rs|, i requires 0 <= i < |rs| => Document(rs[i].question, rs[i].question, rs[i].answer))
  }

  lemma DocumentsOfAppend(a: seq<QA>, b: seq<QA>)
    ensures DocumentsOf(a + b) == DocumentsOf(a) + DocumentsOf(b)
  {
  }

  /** The documents `build_index` reads from a source: the strict records,
      with the same `KeyError`s. */
  function SourceDocuments(src: RawSource): Result<seq<Document>, MissingKey> {
    match StrictRecords(src)
    case Err(e) => Err(e)
    case Ok(rs) => Ok(DocumentsOf(rs))
  }

  /** For a well-formed source there is exactly one document per question,
      in category order and then question order. */
  lemma SourceDocumentsOfCategories(cats: seq<Category>)
    ensures SourceDocuments(SourceOf(cats)) == Ok(DocumentsOf(Flatten(cats)))
    ensures |DocumentsOf(Flatten(cats))| == TotalQuestions(cats)
  {
    StrictRecordsOfSource(cats);
  }

  /** The nested loop building `docs`. */
  method BuildDocuments(src: RawSource) returns (r: Result<seq<Document>, MissingKey>)
    ensures r == SourceDocuments(src)
  {
    if src.faqData.None? {
      return Err(MissingKey("faq_data"));
    }
    var cats := src.faqData.value;
    var docs: seq<Document> := [];
    ghost var records: seq<QA> := [];
    for c := 0 to |cats|
      invariant StrictCategories(cats[..c]) == Ok(records)
      invariant docs == DocumentsOf(records)
    {
      var cat := cats[c];
      if cat.questions.None? {
        CategoryRaises(cats, c);
        return Err(MissingKey("questions"));
      }
      var qas := cat.questions.value;
      ghost var prev := records;
      for j := 0 to |qas|
        invariant StrictPairs(qas[..j]).Ok? && records == prev + StrictPairs(qas[..j]).value
        invariant docs == DocumentsOf(records)
      {
        var qa := qas[j];
        if qa.question.None? {
          PairRaises(cats, c, j);
          return Err(MissingKey("question"));
        }
        if qa.answer.None? {
          PairRaises(cats, c, j);
          return Err(MissingKey("answer"));
        }
        var question := qa.question.value;
        StrictPairsStep(qas, j);
        DocumentsOfAppend(records, [QA(question, qa.answer.value)]);
        records := records + [QA(question, qa.answer.value)];
        docs := docs + [Document(question, question, qa.answer.value)];
      }
      assert qas[..|qas|] == qas;
      StrictCategoriesStep(cats, c);
    }
    assert cats[..|cats|] == cats;
    return Ok(docs);
  }

  /** The project after `build_index(name)` from `stored`, and the
      `KeyError` it raised, if any. The index is created before the source is
      read, so it exists even when reading fails. */
  function BuildIndexState(stored: map<string, seq<Document>>, name: string, src: RawSource)
    : (r: (map<string, seq<Document>>, Option<MissingKey>))
    ensures name in r.0
  {
    var created := if name in stored then stored else stored[name := []];
    if |created[name]| == 0 then
      match SourceDocuments(src)
      case Err(e) => (created, Some(e))
      case Ok(docs) => (created[name := docs], None)
    else (created, None)
  }

  /** The index is created only when its name is absent; no other index is
      touched; an index that already holds documents is left as it is. */
  lemma BuildIndexCreatesOnce(stored: map<string, seq<Document>>, name: string, src: RawSource)
    ensures BuildIndexState(stored, name, src).0.Keys == stored.Keys + {name}
    ensures forall k :: k in stored && k != name ==> BuildIndexState(stored, name, src).0[k] == stored[k]
    ensures name in stored && |stored[name]| > 0 ==> BuildIndexState(stored, name, src) == (stored, None)
  {
  }

  /** An empty (or new) index receives exactly the source's documents. */
  lemma BuildIndexIngestsWhenEmpty(stored: map<string, seq<Document>>, name: string, src: RawSource)
    requires name !in stored || stored[name] == []
    ensures SourceDocuments(src).Ok? ==>
              BuildIndexState(stored, name, src) == (stored[name := SourceDocuments(src).value], None)
    ensures SourceDocuments(src).Err? ==>
              BuildIndexState(stored, name, src) == (stored[name := []], Some(SourceDocuments(src).error))
  {
    var created := if name in stored then stored else stored[name := []];
    assert created == stored[name := []];
    if SourceDocuments(src).Ok? {
      assert created[name := SourceDocuments(src).value] == stored[name := SourceDocuments(src).value];
    }
  }

  /** Building twice is building once: after the first call the index
      exists and either holds documents, so the second ingests nothing, or
      holds none because the source gave none or raised, and reading the
      source again gives the same outcome. */
  lemma BuildIndexIdempotent(stored: map<string, seq<Document>>, name: string, src: RawSource)
    ensures var (once, err) := BuildIndexState(stored, name, src);
            BuildIndexState(once, name, src) == (once, err)
  {
    var (once, err) := BuildIndexState(stored, name, src);
    if |once[name]| == 0 {
      var created := if name in stored then stored else stored[name := []];
      assert |created[name]| == 0;
      match SourceDocuments(src)
      case Err(e) =>
      case Ok(docs) =>
        assert once == created[name := docs];
        assert docs == [];
        assert once == created;
    }
  }

  /** The Pinecone project as `build_index` sees it: the existing indexes
      and the documents each one stores. */
  class PineconeProject {
    var indexes: map<string, seq<Document>>

    constructor (indexes: map<string, seq<Document>>)
      ensures this.indexes == indexes
    {
      this.indexes := indexes;
    }

    /** `pc.list_indexes()` names */
    function IndexNames(): set<string>
      reads this
    {
      indexes.Keys
    }

    /** `vstore.count()` for an existing index */
    function Count(name: string): nat
      reads this
      requires name in indexes
    {
      |indexes[name]|
    }

    /** `build_index()` for the configured index name. */
    method BuildIndex(name: string, src: RawSource) returns (err: Option<MissingKey>)
      modifies this
      ensures (indexes, err) == BuildIndexState(old(indexes), name, src)
    {
      if name !in IndexNames() {
        indexes := indexes[name := []];
      }
      if Count(name) == 0 {
        var docs := BuildDocuments(src);
        match docs
        case Err(e) =>
          return Some(e);
        case Ok(ds) =>
          indexes := indexes[name := ds];
      }
      return None;
    }
  }
}
