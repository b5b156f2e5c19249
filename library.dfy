/** The template library browser (components/PromptLibrary.tsx): an
    order-preserving filter of the catalogue by a search term, matched
    without regard to case against title and description, and by one
    category selection. */
module PromptLibrary {
  import opened Types
  import opened Strings
  import opened Seqs

  /** The category selection: every category, or exactly one. */
  datatype CategoryFilter = AllCategories | Only(category: Category)

  /** The label a category button shows. */
  function FilterLabel(f: CategoryFilter): string
  {
    match f
    case AllCategories => "All"
    case Only(c) => CategoryName(c)
  }

  /** The category buttons, in display order: "All", then the categories in
      declaration order. */
  function CategoryFilters(): (r: seq<CategoryFilter>)
    ensures |r| == 7 && r[0] == AllCategories
    ensures forall i :: 1 <= i < |r| ==> r[i].Only? && CategoryIndex(r[i].category) == i - 1
    ensures forall i, j :: 0 <= i < j < |r| ==> FilterLabel(r[i]) != FilterLabel(r[j])
  {
    [AllCategories, Only(Surreal), Only(Tech), Only(Lifestyle), Only(Business),
     Only(Creative), Only(Professional)]
  }

  /** Every selection has a button. */
  lemma CategoryFiltersComplete(f: CategoryFilter)
    ensures f in CategoryFilters()
  {
    var r := CategoryFilters();
    match f
    case AllCategories => assert r[0] == f;
    case Only(Surreal) => assert r[1] == f;
    case Only(Tech) => assert r[2] == f;
    case Only(Lifestyle) => assert r[3] == f;
    case Only(Business) => assert r[4] == f;
    case Only(Creative) => assert r[5] == f;
    case Only(Professional) => assert r[6] == f;
  }

  /** The search term occurs, ignoring case, in the title or the description. */
  predicate MatchesSearch(t: PromptTemplate, search: string)
  {
    Contains(Lower(t.title), Lower(search)) || Contains(Lower(t.description), Lower(search))
  }

  /** "All" admits every template; a single category admits its own. */
  predicate MatchesCategory(t: PromptTemplate, f: CategoryFilter)
  {
    f.AllCategories? || t.category == CategoryName(f.category)
  }

  predicate Keeps(t: PromptTemplate, search: string, f: CategoryFilter)
  {
    MatchesSearch(t, search) && MatchesCategory(t, f)
  }

  /** `filteredTemplates`: the templates that match, in catalogue order. */
  function Filter(ts: seq<PromptTemplate>, search: string, f: CategoryFilter): (r: seq<PromptTemplate>)
    ensures forall t :: t in r <==> t in ts && Keeps(t, search, f)
    ensures IsSubsequence(r, ts)
  {
    if ts == [] then []
    else
      var rest := Filter(ts[1..], search, f);
      SubsequenceCons(ts[0], rest, ts[1..]);
      if Keeps(ts[0], search, f) then [ts[0]] + rest else rest
  }

  /** The filter keeps every copy of a kept template and no copy of any
      other: each template occurs in the result as often as in the catalogue,
      or not at all. */
  lemma {:induction false} FilterCount(ts: seq<PromptTemplate>, search: string, f: CategoryFilter)
    ensures forall t :: multiset(Filter(ts, search, f))[t]
                        == if Keeps(t, search, f) then multiset(ts)[t] else 0
  {
    if ts != [] {
      FilterCount(ts[1..], search, f);
      assert ts == [ts[0]] + ts[1..];
    }
  }

  /** With the initial empty search and "All", the whole catalogue is shown. */
  lemma {:induction false} FilterInitialShowsAll(ts: seq<PromptTemplate>)
    ensures Filter(ts, "", AllCategories) == ts
  {
    if ts != [] {
      ContainsEmpty(Lower(ts[0].title));
      FilterInitialShowsAll(ts[1..]);
    }
  }

  /** Filtering a filtered list again with the same selection changes nothing. */
  lemma {:induction false} FilterIdempotent(ts: seq<PromptTemplate>, search: string, f: CategoryFilter)
    ensures Filter(Filter(ts, search, f), search, f) == Filter(ts, search, f)
  {
    if ts != [] {
      FilterIdempotent(ts[1..], search, f);
      if Keeps(ts[0], search, f) {
        assert ([ts[0]] + Filter(ts[1..], search, f))[1..] == Filter(ts[1..], search, f);
      }
    }
  }

  /** The search ignores case: searching the capitalised or the lower-cased
      term gives the same result as the term itself. */
  lemma {:induction false} FilterIgnoresCase(ts: seq<PromptTemplate>, search: string, f: CategoryFilter)
    ensures Filter(ts, Upper(search), f) == Filter(ts, search, f)
    ensures Filter(ts, Lower(search), f) == Filter(ts, search, f)
  {
    LowerForgetsCase(search);
    if ts != [] {
      FilterIgnoresCase(ts[1..], search, f);
    }
  }

  /** A template with the fields the filter never reads blanked: tags, seed
      and parameters. */
  function Unsearched(t: PromptTemplate): PromptTemplate
  {
    t.(tags := [], seed := "", parameters := [])
  }

  function UnsearchedAll(ts: seq<PromptTemplate>): (r: seq<PromptTemplate>)
    ensures |r| == |ts|
    ensures forall i :: 0 <= i < |ts| ==> r[i] == Unsearched(ts[i])
  {
    if ts == [] then [] else [Unsearched(ts[0])] + UnsearchedAll(ts[1..])
  }

  /** Tags, seed and parameters are never consulted: blanking them before or
      after filtering gives the same list. */
  lemma {:induction false} FilterIgnoresUnsearched(ts: seq<PromptTemplate>, search: string, f: CategoryFilter)
    ensures Filter(UnsearchedAll(ts), search, f) == UnsearchedAll(Filter(ts, search, f))
  {
    if ts != [] {
      FilterIgnoresUnsearched(ts[1..], search, f);
      assert UnsearchedAll(ts)[1..] == UnsearchedAll(ts[1..]);
      assert Keeps(Unsearched(ts[0]), search, f) == Keeps(ts[0], search, f);
      if Keeps(ts[0], search, f) {
        assert UnsearchedAll([ts[0]] + Filter(ts[1..], search, f))
               == [Unsearched(ts[0])] + UnsearchedAll(Filter(ts[1..], search, f));
      }
    }
  }
}
