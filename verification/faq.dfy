/**
 The help page: the question list filtered by a search term and a category,
 and the map of expanded questions. The question and answer texts of the
 eight entries are not modelled; their identifiers and categories are.
 */
module Faq {
  import opened Text
  import opened Filtering

  datatype FaqItem = FaqItem(id: int, category: string, question: string, answer: string)

  /** The category choice that shows every category. */
  const AllCategories: string := "all"

  /** Identifier and category of each entry of the page, in page order. */
  const Catalogue: seq<(int, string)> := [
    (1, "account"), (2, "service"), (3, "service"), (4, "account"),
    (5, "payment"), (6, "service"), (7, "technical"), (8, "service")
  ]

  /** A list whose identifiers and categories are those of the page. */
  predicate FollowsCatalogue(items: seq<FaqItem>) {
    |items| == |Catalogue|
    && forall i :: 0 <= i < |items| ==> (items[i].id, items[i].category) == Catalogue[i]
  }

  predicate MatchesSearch(item: FaqItem, term: string) {
    ContainsIgnoringCase(item.question, term) || ContainsIgnoringCase(item.answer, term)
  }

  predicate MatchesCategory(item: FaqItem, category: string) {
    category == AllCategories || item.category == category
  }

  /** The filter callback of `filteredFAQs`. */
  function ShownBy(term: string, category: string): FaqItem -> bool {
    (item: FaqItem) => MatchesSearch(item, term) && MatchesCategory(item, category)
  }

  function FilteredFaqs(items: seq<FaqItem>, term: string, category: string): (r: seq<FaqItem>)
    ensures forall k :: 0 <= k < |r| ==> MatchesSearch(r[k], term) && MatchesCategory(r[k], category)
    ensures forall j ::
              0 <= j < |items| && MatchesSearch(items[j], term) && MatchesCategory(items[j], category) ==> items[j] in r
  {
    Filter(items, ShownBy(term, category))
  }

  /**
   The shown questions are the page's list at strictly increasing positions,
   and a position is shown exactly when its entry matches the term and the
   category.
   */
  lemma FaqSelection(items: seq<FaqItem>, term: string, category: string) returns (idx: seq<nat>)
    ensures |idx| == |FilteredFaqs(items, term, category)|
    ensures forall k :: 0 <= k < |idx| ==> idx[k] < |items| && FilteredFaqs(items, term, category)[k] == items[idx[k]]
    ensures forall k, l :: 0 <= k < l < |idx| ==> idx[k] < idx[l]
    ensures forall j :: 0 <= j < |items| ==>
              (MatchesSearch(items[j], term) && MatchesCategory(items[j], category) <==> j in idx)
  {
    idx := FilterSelects(items, ShownBy(term, category));
  }

  /** The empty search term occurs in every text. */
  lemma EmptyTermMatches(hay: string)
    ensures ContainsIgnoringCase(hay, "")
  {
    assert Lower("") == "";
    ContainsEmpty(Lower(hay));
  }

  /** With no search term and every category, the whole list is shown in its order. */
  lemma DefaultShowsEverything(items: seq<FaqItem>)
    ensures FilteredFaqs(items, "", AllCategories) == items
  {
    forall j | 0 <= j < |items|
      ensures ShownBy("", AllCategories)(items[j])
    {
      EmptyTermMatches(items[j].question);
    }
    FilterKeepsAll(items, ShownBy("", AllCategories));
  }

  /** The page's own list: all eight entries with no search and every category. */
  lemma DefaultShowsAllEight(items: seq<FaqItem>)
    requires FollowsCatalogue(items)
    ensures |FilteredFaqs(items, "", AllCategories)| == 8
    ensures FilteredFaqs(items, "", AllCategories) == items
  {
    DefaultShowsEverything(items);
  }

  /**
   A search term that contains another shows only questions the shorter term
   shows, in the same order; and choosing one category shows only questions
   "all" shows.
   */
  lemma NarrowingSearch(items: seq<FaqItem>, t1: string, t2: string, category: string)
    requires Contains(t2, t1)
    ensures FilteredFaqs(items, t2, category) == Filter(FilteredFaqs(items, t1, category), ShownBy(t2, category))
    ensures FilteredFaqs(items, t1, category) == Filter(FilteredFaqs(items, t1, AllCategories), ShownBy(t1, category))
  {
    forall j | 0 <= j < |items| && ShownBy(t2, category)(items[j])
      ensures ShownBy(t1, category)(items[j])
    {
      if ContainsIgnoringCase(items[j].question, t2) {
        ContainsIgnoringCaseNarrows(items[j].question, t1, t2);
      } else {
        ContainsIgnoringCaseNarrows(items[j].answer, t1, t2);
      }
    }
    FilterNarrows(items, ShownBy(t1, category), ShownBy(t2, category));
    FilterNarrows(items, ShownBy(t1, AllCategories), ShownBy(t1, category));
  }

  // ---------------------------------------------------------------------------
  // Expanded questions

  /** `openItems`: a flag per identifier; an identifier never toggled is closed. */
  type OpenItems = map<int, bool>

  predicate IsOpen(open: OpenItems, id: int) {
    id in open && open[id]
  }

  /** `toggleItem(id)`: `{ ...prev, [id]: !prev[id] }`. */
  function Toggle(open: OpenItems, id: int): (r: OpenItems)
    ensures IsOpen(r, id) <==> !IsOpen(open, id)
    ensures r.Keys == open.Keys + {id}
    ensures forall k :: k in open && k != id ==> r[k] == open[k]
  {
    open[id := !IsOpen(open, id)]
  }

  /** Toggling the same question twice restores whether it is open, and no other flag moves. */
  lemma ToggleTwice(open: OpenItems, id: int)
    ensures IsOpen(Toggle(Toggle(open, id), id), id) == IsOpen(open, id)
    ensures forall k :: k != id ==> (IsOpen(Toggle(Toggle(open, id), id), k) <==> IsOpen(open, k))
  {
  }
}
