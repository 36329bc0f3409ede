/**
  The public blog page (src/app/blog/page.tsx): the published articles, the
  category list offered by the header, the search and category filters, and
  the choice between the detail view, the loading message and the grid.
 */
module Blog {
  import opened Outcomes
  import opened Seqs
  import opened Text
  import opened Articles
  import ArticleGrid

  // ---------------------------------------------------------------------------
  // Loading

  function IsPublished(): Article -> bool {
    (a: Article) => a.publish
  }

  /** `data.filter(article => article.publish)`. */
  function PublishedOnly(data: seq<Article>): (r: seq<Article>)
    ensures forall a :: a in r <==> a in data && a.publish
  {
    Filter(data, IsPublished())
  }

  /** `c` is offered for `a`: the article's `categoryy` is the string `c`, which is not blank once trimmed. */
  predicate HasListedCategory(a: Article, c: string) {
    a.categoryy == Some(c) && Trim(c) != ""
  }

  /** The `categoryy` values that survive the string and non-blank test, in list order, repeats included. */
  function CategoryValues(list: seq<Article>): (cs: seq<string>)
    ensures |cs| <= |list|
    ensures forall c :: c in cs ==> Trim(c) != ""
  {
    if list == [] then []
    else
      var a := list[0];
      (if a.categoryy.Some? && Trim(a.categoryy.value) != "" then [a.categoryy.value] else [])
        + CategoryValues(list[1..])
  }

  /** A value is collected exactly when some article offers it. */
  lemma {:induction false} CategoryValuesSpec(list: seq<Article>, c: string)
    ensures c in CategoryValues(list) <==> exists a :: a in list && HasListedCategory(a, c)
  {
    if list != [] {
      CategoryValuesSpec(list[1..], c);
      assert list == [list[0]] + list[1..];
      if HasListedCategory(list[0], c) {
        assert c in CategoryValues(list);
      }
      if exists a :: a in list && HasListedCategory(a, c) {
        var a :| a in list && HasListedCategory(a, c);
        if a != list[0] {
          assert a in list[1..];
        }
      }
    }
  }

  /** `[...new Set(values)]`: the category list, each value once, in the order of first occurrence. */
  function Categories(published: seq<Article>): (cs: seq<string>)
    ensures NoDuplicates(cs)
    ensures |cs| <= |published|
    ensures forall c :: c in cs ==> Trim(c) != ""
  {
    Distinct(CategoryValues(published))
  }

  /**
    The category list holds each offered category of the published
    articles exactly once, and lists them by first occurrence.
   */
  lemma CategoriesSpec(published: seq<Article>, c: string)
    ensures NoDuplicates(Categories(published))
    ensures c in Categories(published) <==> exists a :: a in published && HasListedCategory(a, c)
    ensures forall i, j :: 0 <= i < j < |Categories(published)| ==>
      FirstIndex(CategoryValues(published), Categories(published)[i]) < FirstIndex(CategoryValues(published), Categories(published)[j])
  {
    CategoryValuesSpec(published, c);
    forall i, j | 0 <= i < j < |Categories(published)|
      ensures FirstIndex(CategoryValues(published), Categories(published)[i]) < FirstIndex(CategoryValues(published), Categories(published)[j])
    {
      DistinctFirstOccurrenceOrder(CategoryValues(published), i, j);
    }
  }

  // ---------------------------------------------------------------------------
  // Filtering

  /** The search test: an empty term keeps everything; otherwise the lowered title or content must contain the lowered term. */
  predicate MatchesTerm(a: Article, term: string)
    ensures term == "" ==> MatchesTerm(a, term)
    ensures Contains(a.title, term) || Contains(a.content, term) ==> MatchesTerm(a, term)
  {
    ContainsLowered(a.title, term);
    ContainsLowered(a.content, term);
    term == "" || Contains(Lower(a.title), Lower(term)) || Contains(Lower(a.content), Lower(term))
  }

  /** The category test: an empty selection keeps everything; otherwise `categoryy` must equal it exactly. */
  predicate MatchesCategory(a: Article, category: string)
    ensures category == "" ==> MatchesCategory(a, category)
    ensures MatchesCategory(a, category) && Trim(category) != "" ==> HasListedCategory(a, category)
  {
    category == "" || a.categoryy == Some(category)
  }

  function TermTest(term: string): Article -> bool {
    (a: Article) => Contains(Lower(a.title), Lower(term)) || Contains(Lower(a.content), Lower(term))
  }

  function CategoryTest(category: string): Article -> bool {
    (a: Article) => a.categoryy == Some(category)
  }

  /** `filterArticles`: the search filter when the term is non-empty, then the category filter when one is selected. */
  function FilterArticles(articles: seq<Article>, term: string, category: string): (r: seq<Article>)
    ensures forall a :: a in r <==> a in articles && MatchesTerm(a, term) && MatchesCategory(a, category)
  {
    var byTerm := if term != "" then Filter(articles, TermTest(term)) else articles;
    if category != "" then Filter(byTerm, CategoryTest(category)) else byTerm
  }

  /** Both tests at once. */
  function Keeps(term: string, category: string): Article -> bool {
    (a: Article) => MatchesTerm(a, term) && MatchesCategory(a, category)
  }

  /** The two filters in a row are one filter by both tests. */
  lemma FilterArticlesIsOneFilter(articles: seq<Article>, term: string, category: string)
    ensures FilterArticles(articles, term, category) == Filter(articles, Keeps(term, category))
  {
    var byTerm := if term != "" then Filter(articles, TermTest(term)) else articles;
    if term != "" && category != "" {
      FilterFilter(articles, TermTest(term), CategoryTest(category));
      FilterExt(articles, Both(TermTest(term), CategoryTest(category)), Keeps(term, category));
    } else if term != "" {
      FilterExt(articles, TermTest(term), Keeps(term, category));
    } else if category != "" {
      FilterExt(articles, CategoryTest(category), Keeps(term, category));
    } else {
      FilterAllKept(articles, Keeps(term, category));
    }
  }

  /**
    The grid's list is an order-preserving subsequence of the published
    articles, keeping each matching article as often as it occurs.
   */
  lemma FilterArticlesIsSubseq(articles: seq<Article>, term: string, category: string, a: Article)
    ensures IsSubseq(FilterArticles(articles, term, category), articles)
    ensures multiset(FilterArticles(articles, term, category))[a] ==
      if MatchesTerm(a, term) && MatchesCategory(a, category) then multiset(articles)[a] else 0
  {
    FilterArticlesIsOneFilter(articles, term, category);
    FilterIsSubseq(articles, Keeps(term, category));
    FilterCount(articles, Keeps(term, category), a);
  }

  /** With no search term and no category, the grid shows every published article. */
  lemma NoFilterIsIdentity(articles: seq<Article>)
    ensures FilterArticles(articles, "", "") == articles
  {
  }

  /** The search ignores the case of the term. */
  lemma SearchIgnoresTermCase(articles: seq<Article>, term: string, category: string)
    ensures FilterArticles(articles, Lower(term), category) == FilterArticles(articles, term, category)
  {
    LowerIdempotent(term);
    FilterArticlesIsOneFilter(articles, term, category);
    FilterArticlesIsOneFilter(articles, Lower(term), category);
    assert Lower(term) == "" <==> term == "";
    FilterExt(articles, Keeps(Lower(term), category), Keeps(term, category));
  }

  // ---------------------------------------------------------------------------
  // The page

  /** What the page shows: the detail of the selected article, or the header over the loading message or the grid. */
  datatype Screen =
    | DetailScreen(article: Article)
    | LoadingScreen(categories: seq<string>)
    | GridScreen(categories: seq<string>, grid: ArticleGrid.GridView)

  class BlogPage {
    var articles: seq<Article>
    var filteredArticles: seq<Article>
    var selectedArticle: Option<Article>
    var searchTerm: string
    var selectedCategory: string
    var categories: seq<string>
    var loading: bool

    /** The filter effect has run for the current list, term and category. */
    predicate Valid()
      reads this
    {
      filteredArticles == FilterArticles(articles, searchTerm, selectedCategory)
    }

    /** Mounting: empty lists and term, nothing selected, loading; the filter effect runs on the empty list. */
    constructor()
      ensures Valid()
      ensures articles == [] && filteredArticles == [] && categories == []
      ensures selectedArticle == None && searchTerm == "" && selectedCategory == "" && loading
    {
      articles := [];
      filteredArticles := [];
      selectedArticle := None;
      searchTerm := "";
      selectedCategory := "";
      categories := [];
      loading := true;
      new;
      filteredArticles := FilterArticles(articles, searchTerm, selectedCategory);
    }

    /** `loadArticles` up to its `await fetchArticles()`. */
    method BeginLoad()
      modifies this
      ensures loading
      ensures articles == old(articles) && filteredArticles == old(filteredArticles) && categories == old(categories)
      ensures selectedArticle == old(selectedArticle) && searchTerm == old(searchTerm) && selectedCategory == old(selectedCategory)
    {
      loading := true;
    }

    /**
      `loadArticles` after the fetch, followed by the filter effect: on
      success the published articles and their categories replace the old
      ones; on failure everything is kept. Loading ends either way.
     */
    method SettleLoad(outcome: ApiResult<seq<Article>>)
      modifies this
      requires Valid()
      ensures Valid() && !loading
      ensures outcome.Success? ==> articles == PublishedOnly(outcome.value) && categories == Categories(articles)
      ensures outcome.Failure? ==> articles == old(articles) && categories == old(categories)
      ensures selectedArticle == old(selectedArticle) && searchTerm == old(searchTerm) && selectedCategory == old(selectedCategory)
    {
      if outcome.Success? {
        var published := PublishedOnly(outcome.value);
        articles := published;
        categories := Distinct(CategoryValues(published));
        filteredArticles := FilterArticles(articles, searchTerm, selectedCategory);
      }
      loading := false;
    }

    /** The header's search box, followed by the filter effect. */
    method SetSearchTerm(term: string)
      modifies this
      ensures Valid() && searchTerm == term
      ensures articles == old(articles) && categories == old(categories) && loading == old(loading)
      ensures selectedArticle == old(selectedArticle) && selectedCategory == old(selectedCategory)
    {
      searchTerm := term;
      filteredArticles := FilterArticles(articles, searchTerm, selectedCategory);
    }

    /** The header's category select, followed by the filter effect. */
    method SetSelectedCategory(category: string)
      modifies this
      ensures Valid() && selectedCategory == category
      ensures articles == old(articles) && categories == old(categories) && loading == old(loading)
      ensures selectedArticle == old(selectedArticle) && searchTerm == old(searchTerm)
    {
      selectedCategory := category;
      filteredArticles := FilterArticles(articles, searchTerm, selectedCategory);
    }

    method HandleArticleClick(article: Article)
      modifies this
      ensures selectedArticle == Some(article)
      ensures articles == old(articles) && filteredArticles == old(filteredArticles) && categories == old(categories)
      ensures searchTerm == old(searchTerm) && selectedCategory == old(selectedCategory) && loading == old(loading)
    {
      selectedArticle := Some(article);
    }

    method HandleBackToGrid()
      modifies this
      ensures selectedArticle == None
      ensures articles == old(articles) && filteredArticles == old(filteredArticles) && categories == old(categories)
      ensures searchTerm == old(searchTerm) && selectedCategory == old(selectedCategory) && loading == old(loading)
    {
      selectedArticle := None;
    }

    /** A selected article always wins; otherwise the loading message or the grid of the filtered list. */
    function Screen(): (s: Screen)
      reads this
      ensures s.DetailScreen? <==> selectedArticle.Some?
      ensures s.DetailScreen? ==> s.article == selectedArticle.value
      ensures s.LoadingScreen? <==> selectedArticle.None? && loading
      ensures s.GridScreen? ==> s.grid == ArticleGrid.Render(ArticleGrid.Entries(filteredArticles))
      ensures !s.DetailScreen? ==> s.categories == categories
    {
      if selectedArticle.Some? then DetailScreen(selectedArticle.value)
      else if loading then LoadingScreen(categories)
      else GridScreen(categories, ArticleGrid.Render(ArticleGrid.Entries(filteredArticles)))
    }
  }

  /** Every card of the blog grid is a published article that matches the current search and category. */
  lemma GridShowsOnlyMatches(data: seq<Article>, term: string, category: string, a: Article)
    requires a in ArticleGrid.Render(ArticleGrid.Entries(FilterArticles(PublishedOnly(data), term, category))).cards
    ensures a in data && a.publish && MatchesTerm(a, term) && MatchesCategory(a, category)
  {
    var list := FilterArticles(PublishedOnly(data), term, category);
    var i :| 0 <= i < |ArticleGrid.Entries(list)| && ArticleGrid.Entries(list)[i] == Some(a);
    assert list[i] == a;
  }
}
