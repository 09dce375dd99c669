/** The FAQ knowledge base shared by every pipeline variant: the nested
    `faq_data -> categories -> questions` document, the ingestion entries that
    are merged into it, and the flat ordered record list the retrievers index. */
module Faq {

  datatype Option<+T> = None | Some(value: T) {
    /** `dict.get(key, default)` for a key that may be absent. */
    function GetOr(default: T): T {
      match this
      case Some(v) => v
      case None => default
    }
  }

  datatype Result<+T, +E> = Ok(value: T) | Err(error: E)

  /** A stored `{question, answer}` pair; the category is not part of it. */
  datatype QA = QA(question: string, answer: string)

  /** One element of the `faq_data` list: `{category, questions}`. */
  datatype Category = Category(name: string, questions: seq<QA>)

  /** One ingestion entry `{category, question, answer}`. */
  datatype NewEntry = NewEntry(category: string, question: string, answer: string)

  /** The `{question, answer}` pair an entry contributes. */
  function PairOf(e: NewEntry): QA {
    QA(e.question, e.answer)
  }

  // The same shapes as they come out of `json.load`, where any key may be
  // absent (None).
  datatype RawQA = RawQA(question: Option<string>, answer: Option<string>)
  datatype RawCategory = RawCategory(category: Option<string>, questions: Option<seq<RawQA>>)
  datatype RawSource = RawSource(faqData: Option<seq<RawCategory>>)

  /** The key whose absence raised `KeyError`. */
  datatype MissingKey = MissingKey(key: string)

  /** Number of questions over all categories. */
  function TotalQuestions(cats: seq<Category>): nat {
    if cats == [] then 0
    else TotalQuestions(cats[..|cats| - 1]) + |cats[|cats| - 1].questions|
  }

  /** The records of all categories, in category order and then question order. */
  function Flatten(cats: seq<Category>): (r: seq<QA>)
    ensures |r| == TotalQuestions(cats)
  {
    if cats == [] then []
    else Flatten(cats[..|cats| - 1]) + cats[|cats| - 1].questions
  }

  /** The set of category names. */
  function Names(cats: seq<Category>): set<string> {
    set c | c in cats :: c.name
  }

  /** `any(cat['category'] == name for cat in cats)` */
  predicate HasCategory(cats: seq<Category>, name: string) {
    exists i :: 0 <= i < |cats| && cats[i].name == name
  }

  /** The position of the first category named exactly `name`, if any. */
  function FindCategory(cats: seq<Category>, name: string): (r: Option<nat>)
    ensures r.Some? ==> r.value < |cats| && cats[r.value].name == name
    ensures r.Some? ==> forall j :: 0 <= j < r.value ==> cats[j].name != name
    ensures r.None? <==> !HasCategory(cats, name)
  {
    if cats == [] then None
    else if cats[0].name == name then Some(0)
    else match FindCategory(cats[1..], name)
      case None => None
      case Some(i) => Some(i + 1)
  }

  lemma NamesHasCategory(cats: seq<Category>, name: string)
    ensures name in Names(cats) <==> HasCategory(cats, name)
  {
    if name in Names(cats) {
      var c :| c in cats && c.name == name;
      var i :| 0 <= i < |cats| && cats[i] == c;
    }
  }

  lemma {:induction false} TotalQuestionsAppend(a: seq<Category>, b: seq<Category>)
    ensures TotalQuestions(a + b) == TotalQuestions(a) + TotalQuestions(b)
  {
    if b != [] {
      assert (a + b)[..|a + b| - 1] == a + b[..|b| - 1];
      TotalQuestionsAppend(a, b[..|b| - 1]);
    } else {
      assert a + b == a;
    }
  }

  /** Flattening distributes over concatenation of category lists. */
  lemma {:induction false} FlattenAppend(a: seq<Category>, b: seq<Category>)
    ensures Flatten(a + b) == Flatten(a) + Flatten(b)
  {
    if b == [] {
      assert a + b == a;
    } else {
      assert (a + b)[..|a + b| - 1] == a + b[..|b| - 1];
      FlattenAppend(a, b[..|b| - 1]);
    }
  }

  /** Flattening splits around category `i`. */
  lemma {:induction false} FlattenSplit(cats: seq<Category>, i: nat)
    requires i < |cats|
    ensures Flatten(cats) == Flatten(cats[..i]) + cats[i].questions + Flatten(cats[i + 1..])
  {
    var pre, mid, post := cats[..i], [cats[i]], cats[i + 1..];
    assert cats == (pre + mid) + post;
    FlattenAppend(pre + mid, post);
    FlattenAppend(pre, mid);
    assert mid[..0] == [];
    assert Flatten(mid) == cats[i].questions;
  }

  /** Position `TotalQuestions(cats[..c]) + k` of the flat list holds question
      `k` of category `c`: a returned position maps back to its source entry. */
  lemma FlattenAt(cats: seq<Category>, c: nat, k: nat)
    requires c < |cats| && k < |cats[c].questions|
    ensures TotalQuestions(cats[..c]) + k < |Flatten(cats)|
    ensures Flatten(cats)[TotalQuestions(cats[..c]) + k] == cats[c].questions[k]
  {
    FlattenSplit(cats, c);
  }
}
