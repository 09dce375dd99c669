/** Ingestion of new FAQ entries into the `faq_data` document: the merge loop
    of `update_faq_file`, `add_new_faq`, and the question list that
    `reindex_faq` embeds. The document is an object whose category list is
    updated in place; the functions below say what that list becomes. */
module Ingestion {
  import opened Faq

  /** The category list with `qa` appended to the questions of category `i`. */
  function AppendAt(cats: seq<Category>, i: nat, qa: QA): seq<Category>
    requires i < |cats|
  {
    cats[i := Category(cats[i].name, cats[i].questions + [qa])]
  }

  /** One iteration of the outer loop of `update_faq_file`. */
  function MergeEntry(cats: seq<Category>, e: NewEntry): (r: seq<Category>)
    ensures HasCategory(r, e.category)
    ensures |cats| <= |r| <= |cats| + 1
  {
    match FindCategory(cats, e.category)
    case Some(i) =>
      var r := AppendAt(cats, i, PairOf(e));
      assert r[i].name == e.category;
      r
    case None =>
      var r := cats + [Category(e.category, [PairOf(e)])];
      assert r[|cats|].name == e.category;
      r
  }

  /** The entries merged one after the other, each against the already
      updated list. */
  function MergeEntries(cats: seq<Category>, es: seq<NewEntry>): (r: seq<Category>)
    ensures |cats| <= |r| <= |cats| + |es|
    ensures es != [] ==> HasCategory(r, es[|es| - 1].category)
  {
    if es == [] then cats
    else MergeEntry(MergeEntries(cats, es[..|es| - 1]), es[|es| - 1])
  }

  /** The category names the entries carry. */
  function EntryNames(es: seq<NewEntry>): set<string> {
    set e | e in es :: e.category
  }

  lemma EntryNamesLast(es: seq<NewEntry>)
    requires es != []
    ensures EntryNames(es) == EntryNames(es[..|es| - 1]) + {es[|es| - 1].category}
  {
    var init := es[..|es| - 1];
    assert es == init + [es[|es| - 1]];
    forall n | n in EntryNames(es) ensures n in EntryNames(init) + {es[|es| - 1].category} {
      var x :| x in es && x.category == n;
      var j :| 0 <= j < |es| && es[j] == x;
      if j < |init| { assert init[j] == x; }
    }
  }

  /** The `{question, answer}` pairs of the entries, in order. */
  function Pairs(es: seq<NewEntry>): (r: seq<QA>)
    ensures |r| == |es| && forall i :: 0 <= i < |es| ==> r[i] == PairOf(es[i])
  {
    if es == [] then [] else Pairs(es[..|es| - 1]) + [PairOf(es[|es| - 1])]
  }

  /** No two categories share a name. */
  predicate DistinctNames(cats: seq<Category>) {
    forall i, j :: 0 <= i < j < |cats| ==> cats[i].name != cats[j].name
  }

  // ---------------------------------------------------------------- one entry

  /** An entry whose category exists goes to the end of the FIRST category of
      that name, without its category field; every other category, including
      later ones with the same name, is unchanged. */
  lemma MergeEntryIntoFirstMatch(cats: seq<Category>, e: NewEntry, i: nat)
    requires i < |cats| && cats[i].name == e.category
    requires forall j :: 0 <= j < i ==> cats[j].name != e.category
    ensures |MergeEntry(cats, e)| == |cats|
    ensures MergeEntry(cats, e)[i].name == cats[i].name
    ensures MergeEntry(cats, e)[i].questions == cats[i].questions + [QA(e.question, e.answer)]
    ensures forall j :: 0 <= j < |cats| && j != i ==> MergeEntry(cats, e)[j] == cats[j]
  {
    var k := FindCategory(cats, e.category).value;
    assert !(k < i) && !(i < k);
  }

  /** A category appended under a name no other category has is the first
      match for that name. */
  lemma FindCategoryAppended(cats: seq<Category>, c: Category)
    requires !HasCategory(cats, c.name)
    ensures FindCategory(cats + [c], c.name) == Some(|cats|)
  {
    assert (cats + [c])[|cats|] == c;
  }

  lemma AppendAtLast(cats: seq<Category>, c: Category, qa: QA)
    ensures AppendAt(cats + [c], |cats|, qa) == cats + [Category(c.name, c.questions + [qa])]
  {
    var r, t := AppendAt(cats + [c], |cats|, qa), cats + [Category(c.name, c.questions + [qa])];
    assert |r| == |t|;
    forall j | 0 <= j < |r| ensures r[j] == t[j] {
      if j < |cats| { assert r[j] == (cats + [c])[j] == cats[j]; }
    }
  }

  /** An entry whose category matches no name (exact, case-sensitive
      comparison) adds exactly one category, at the end, holding only it. */
  lemma MergeEntryNovel(cats: seq<Category>, e: NewEntry)
    requires forall j :: 0 <= j < |cats| ==> cats[j].name != e.category
    ensures MergeEntry(cats, e) == cats + [Category(e.category, [QA(e.question, e.answer)])]
  {
  }

  lemma FlattenAppendAt(cats: seq<Category>, i: nat, qa: QA)
    requires i < |cats|
    ensures Flatten(AppendAt(cats, i, qa))
         == Flatten(cats[..i]) + (cats[i].questions + [qa]) + Flatten(cats[i + 1..])
  {
    var r := AppendAt(cats, i, qa);
    FlattenSplit(r, i);
    assert r[..i] == cats[..i] && r[i + 1..] == cats[i + 1..];
  }

  /** One merge adds exactly its pair to the records, and one category
      exactly when its name was absent. */
  lemma MergeEntryCounts(cats: seq<Category>, e: NewEntry)
    ensures TotalQuestions(MergeEntry(cats, e)) == TotalQuestions(cats) + 1
    ensures |MergeEntry(cats, e)| == if HasCategory(cats, e.category) then |cats| else |cats| + 1
    ensures multiset(Flatten(MergeEntry(cats, e))) == multiset(Flatten(cats)) + multiset{PairOf(e)}
  {
    match FindCategory(cats, e.category)
    case Some(i) =>
      FlattenSplit(cats, i);
      FlattenAppendAt(cats, i, PairOf(e));
    case None =>
      var c := Category(e.category, [PairOf(e)]);
      assert (cats + [c])[..|cats|] == cats;
  }

  lemma MergeEntryNames(cats: seq<Category>, e: NewEntry)
    ensures Names(MergeEntry(cats, e)) == Names(cats) + {e.category}
  {
    NamesHasCategory(cats, e.category);
    var r := MergeEntry(cats, e);
    match FindCategory(cats, e.category)
    case Some(i) =>
      forall n | n in Names(r) ensures n in Names(cats) {
        var c :| c in r && c.name == n;
        var j :| 0 <= j < |r| && r[j] == c;
        assert cats[j].name == n;
      }
      forall n | n in Names(cats) ensures n in Names(r) {
        var c :| c in cats && c.name == n;
        var j :| 0 <= j < |cats| && cats[j] == c;
        assert r[j].name == n;
      }
    case None =>
      assert r == cats + [Category(e.category, [PairOf(e)])];
      assert r[|cats|].name == e.category;
      forall n | n in Names(r) ensures n in Names(cats) + {e.category} {
        var c :| c in r && c.name == n;
        var j :| 0 <= j < |r| && r[j] == c;
        if j < |cats| { assert cats[j] == c; }
      }
      forall n | n in Names(cats) ensures n in Names(r) {
        var c :| c in cats && c.name == n;
        var j :| 0 <= j < |cats| && cats[j] == c;
        assert r[j] == c;
      }
  }

  // ---------------------------------------------------------- a list of entries

  /** Adding name `x` to the entry names grows the novel names by one exactly
      when `x` is neither old nor already among them. */
  lemma NovelNamesStep(known: set<string>, seen: set<string>, x: string)
    ensures |(seen + {x}) - known| == |seen - known| + (if x in known + seen then 0 else 1)
  {
    if x in known + seen {
      assert (seen + {x}) - known == seen - known;
    } else {
      assert (seen + {x}) - known == (seen - known) + {x};
    }
  }

  /** `update_faq_file` adds exactly `len(new_faq_entries)` questions. */
  lemma {:induction false} MergeEntriesTotal(cats: seq<Category>, es: seq<NewEntry>)
    ensures TotalQuestions(MergeEntries(cats, es)) == TotalQuestions(cats) + |es|
  {
    if es != [] {
      var init, e := es[..|es| - 1], es[|es| - 1];
      MergeEntriesTotal(cats, init);
      MergeEntryCounts(MergeEntries(cats, init), e);
    }
  }

  /** The category names afterwards are the old names and the entries'. */
  lemma {:induction false} MergeEntriesNames(cats: seq<Category>, es: seq<NewEntry>)
    ensures Names(MergeEntries(cats, es)) == Names(cats) + EntryNames(es)
  {
    if es == [] {
      assert EntryNames(es) == {};
    } else {
      var init, e := es[..|es| - 1], es[|es| - 1];
      MergeEntriesNames(cats, init);
      MergeEntryNames(MergeEntries(cats, init), e);
      EntryNamesLast(es);
    }
  }

  /** `update_faq_file` adds one category per distinct entry category that was
      not already a category name: two entries with the same novel category
      yield one new category, never two. */
  lemma {:induction false} MergeEntriesCategoryCount(cats: seq<Category>, es: seq<NewEntry>)
    ensures |MergeEntries(cats, es)| == |cats| + |EntryNames(es) - Names(cats)|
  {
    if es == [] {
      assert EntryNames(es) == {};
    } else {
      var init, e := es[..|es| - 1], es[|es| - 1];
      var m := MergeEntries(cats, init);
      var known, seen := Names(cats), EntryNames(init);
      assert |m| == |cats| + |seen - known| by {
        MergeEntriesCategoryCount(cats, init);
      }
      assert Names(m) == known + seen by {
        MergeEntriesNames(cats, init);
      }
      assert EntryNames(es) == seen + {e.category} by {
        EntryNamesLast(es);
      }
      assert MergeEntries(cats, es) == MergeEntry(m, e);
      CategoryCountStep(m, e, known, seen);
    }
  }

  lemma CategoryCountStep(m: seq<Category>, e: NewEntry, known: set<string>, seen: set<string>)
    requires Names(m) == known + seen
    ensures |MergeEntry(m, e)| == |m| + |(seen + {e.category}) - known| - |seen - known|
  {
    MergeEntryCounts(m, e);
    NamesHasCategory(m, e.category);
    NovelNamesStep(known, seen, e.category);
  }

  /** Nothing already present changes: categories keep their position and
      name, and their existing questions stay a prefix of their new ones. */
  lemma {:induction false} MergeEntriesOnlyAppends(cats: seq<Category>, es: seq<NewEntry>)
    ensures |cats| <= |MergeEntries(cats, es)|
    ensures forall j :: 0 <= j < |cats| ==>
      MergeEntries(cats, es)[j].name == cats[j].name &&
      cats[j].questions <= MergeEntries(cats, es)[j].questions
  {
    if es != [] {
      var init, e := es[..|es| - 1], es[|es| - 1];
      var m := MergeEntries(cats, init);
      MergeEntriesOnlyAppends(cats, init);
      var r := MergeEntries(cats, es);
      assert r == MergeEntry(m, e);
      forall j | 0 <= j < |cats|
        ensures r[j].name == cats[j].name && cats[j].questions <= r[j].questions
      {
        assert m[j].questions <= r[j].questions;
      }
    }
  }

  /** The records after the merge are the records before it plus one pair per
      entry. */
  lemma {:induction false} MergeEntriesRecords(cats: seq<Category>, es: seq<NewEntry>)
    ensures multiset(Flatten(MergeEntries(cats, es))) == multiset(Flatten(cats)) + multiset(Pairs(es))
  {
    if es != [] {
      var init, e := es[..|es| - 1], es[|es| - 1];
      MergeEntriesRecords(cats, init);
      MergeEntryCounts(MergeEntries(cats, init), e);
    }
  }

  /** A list whose names are distinct keeps them distinct. */
  lemma {:induction false} MergeEntriesKeepsNamesDistinct(cats: seq<Category>, es: seq<NewEntry>)
    requires DistinctNames(cats)
    ensures DistinctNames(MergeEntries(cats, es))
  {
    if es != [] {
      var init, e := es[..|es| - 1], es[|es| - 1];
      var m := MergeEntries(cats, init);
      MergeEntriesKeepsNamesDistinct(cats, init);
      var r := MergeEntry(m, e);
      match FindCategory(m, e.category)
      case Some(i) =>
        assert forall j :: 0 <= j < |m| ==> r[j].name == m[j].name;
      case None =>
        assert forall j :: 0 <= j < |m| ==> r[j].name == m[j].name;
        assert r[|m|].name == e.category;
    }
  }

  /** Two entries with the same novel category give one new category holding
      both pairs, in order. */
  lemma SameNovelCategoryTwice(cats: seq<Category>, e1: NewEntry, e2: NewEntry)
    requires e1.category == e2.category && !HasCategory(cats, e1.category)
    ensures MergeEntries(cats, [e1, e2]) == cats + [Category(e1.category, [PairOf(e1), PairOf(e2)])]
  {
    assert [e1, e2][..1] == [e1];
    assert [e1][..0] == [];
    var m := cats + [Category(e1.category, [PairOf(e1)])];
    assert MergeEntries(cats, [e1]) == m;
    FindCategoryAppended(cats, Category(e1.category, [PairOf(e1)]));
    AppendAtLast(cats, Category(e1.category, [PairOf(e1)]), PairOf(e2));
    assert [PairOf(e1)] + [PairOf(e2)] == [PairOf(e1), PairOf(e2)];
  }

  // ------------------------------------------------------------- add_new_faq

  /** `faq_data` after lines 20-22: an empty category is appended when none has
      the name. */
  function WithCategory(cats: seq<Category>, name: string): seq<Category> {
    if HasCategory(cats, name) then cats else cats + [Category(name, [])]
  }

  /** The list `add_new_faq` leaves: the pair is appended to the first category
      of that name of `WithCategory(cats, category)`. */
  function AddNewFaqResult(cats: seq<Category>, category: string, question: string, answer: string): seq<Category> {
    var base := WithCategory(cats, category);
    match FindCategory(base, category)
    case Some(i) => AppendAt(base, i, QA(question, answer))
    case None => base
  }

  /** `add_new_faq` and one iteration of `update_faq_file` agree: both routes
      of ingestion leave the same category list. */
  lemma AddNewFaqIsMergeEntry(cats: seq<Category>, category: string, question: string, answer: string)
    ensures AddNewFaqResult(cats, category, question, answer)
         == MergeEntry(cats, NewEntry(category, question, answer))
  {
    if !HasCategory(cats, category) {
      var base := cats + [Category(category, [])];
      FindCategoryAppended(cats, Category(category, []));
      AppendAtLast(cats, Category(category, []), QA(question, answer));
      assert [] + [QA(question, answer)] == [QA(question, answer)];
    }
  }

  /** After `add_new_faq` a category of that name exists, the question count
      is one more, the category count grows by one exactly when the name was
      absent, and existing categories only gain questions at their end. */
  lemma AddNewFaqCounts(cats: seq<Category>, category: string, question: string, answer: string)
    ensures HasCategory(AddNewFaqResult(cats, category, question, answer), category)
    ensures TotalQuestions(AddNewFaqResult(cats, category, question, answer)) == TotalQuestions(cats) + 1
    ensures |AddNewFaqResult(cats, category, question, answer)|
         == if HasCategory(cats, category) then |cats| else |cats| + 1
    ensures forall j :: 0 <= j < |cats| ==>
      AddNewFaqResult(cats, category, question, answer)[j].name == cats[j].name &&
      cats[j].questions <= AddNewFaqResult(cats, category, question, answer)[j].questions
  {
    var e := NewEntry(category, question, answer);
    AddNewFaqIsMergeEntry(cats, category, question, answer);
    MergeEntryCounts(cats, e);
    MergeEntryNames(cats, e);
    NamesHasCategory(MergeEntry(cats, e), category);
    assert [e][..0] == [];
    assert MergeEntries(cats, [e]) == MergeEntry(cats, e);
    MergeEntriesOnlyAppends(cats, [e]);
  }

  // ------------------------------------------------------------- reindex_faq

  /** `[q['question'] for cat in faq_data for q in cat['questions']]` */
  function ReindexQuestions(cats: seq<Category>): (r: seq<string>)
    ensures |r| == TotalQuestions(cats)
  {
    if cats == [] then []
    else
      var qs := cats[|cats| - 1].questions;
      ReindexQuestions(cats[..|cats| - 1]) + seq(|qs|, k requires 0 <= k < |qs| => qs[k].question)
  }

  /** The re-indexed question list is the question text of the flat record
      list, position by position. */
  lemma {:induction false} ReindexQuestionsMatchRecords(cats: seq<Category>)
    ensures forall i :: 0 <= i < |ReindexQuestions(cats)| ==>
      ReindexQuestions(cats)[i] == Flatten(cats)[i].question
  {
    if cats != [] {
      ReindexQuestionsMatchRecords(cats[..|cats| - 1]);
    }
  }

  // ---------------------------------------------------------------- the object

  /** The loaded FAQ document; `faqData` is its `faq_data` list. */
  class FaqDocument {
    var faqData: seq<Category>

    constructor (faqData: seq<Category>)
      ensures this.faqData == faqData
    {
      this.faqData := faqData;
    }

    /** The merge loop of `update_faq_file`. */
    method UpdateFaqFile(newFaqEntries: seq<NewEntry>)
      modifies this
      ensures faqData == MergeEntries(old(faqData), newFaqEntries)
    {
      for k := 0 to |newFaqEntries|
        invariant faqData == MergeEntries(old(faqData), newFaqEntries[..k])
      {
        var entry := newFaqEntries[k];
        ghost var before := faqData;
        var categoryFound := false;
        var i := 0;
        while i < |faqData|
          invariant 0 <= i <= |faqData| && faqData == before && !categoryFound
          invariant forall j :: 0 <= j < i ==> faqData[j].name != entry.category
        {
          if faqData[i].name == entry.category {
            assert FindCategory(before, entry.category) == Some(i);
            faqData := faqData[i := Category(faqData[i].name,
                                             faqData[i].questions + [QA(entry.question, entry.answer)])];
            categoryFound := true;
            break;
          }
          i := i + 1;
        }
        if !categoryFound {
          faqData := faqData + [Category(entry.category, [QA(entry.question, entry.answer)])];
        }
        assert faqData == MergeEntry(before, entry);
        assert newFaqEntries[..k + 1][..k] == newFaqEntries[..k];
      }
      assert newFaqEntries[..|newFaqEntries|] == newFaqEntries;
    }

    /** `add_new_faq`: mutates the document and returns the same object. */
    method AddNewFaq(category: string, question: string, answer: string) returns (doc: FaqDocument)
      modifies this
      ensures doc == this
      ensures faqData == AddNewFaqResult(old(faqData), category, question, answer)
    {
      var categoryExists := HasCategory(faqData, category);
      if !categoryExists {
        faqData := faqData + [Category(category, [])];
      }
      ghost var base := faqData;
      assert base == WithCategory(old(faqData), category);
      var i := 0;
      while i < |faqData|
        invariant 0 <= i <= |faqData| && faqData == base
        invariant forall j :: 0 <= j < i ==> faqData[j].name != category
      {
        if faqData[i].name == category {
          assert FindCategory(base, category) == Some(i);
          faqData := faqData[i := Category(faqData[i].name, faqData[i].questions + [QA(question, answer)])];
          break;
        }
        i := i + 1;
      }
      doc := this;
    }
  }
}
