/**
 * The global search engine: one corpus of search records built from every book
 * of every law source, computed on first use and kept; one search index over it,
 * likewise kept; and the global and per-law searches, which shape the index's
 * hits into search results.
 */
module GlobalSearch {
  import opened Wrappers
  import opened Text
  import opened SeqUtil
  import LawSources
  import opened DataLoader
  import opened SearchTypes

  /** The index options: number and content keys, threshold 0.3, queries of two characters or more. */
  const FUSE_OPTIONS: FuseOptions := FuseOptions(ARTICLE_KEYS, 0.3, 2, false)

  /** Queries shorter than this are not searched. */
  const MIN_QUERY_LENGTH: nat := 2

  // ---------------------------------------------------------------- the corpus

  /** `bookData.name || getNodeLabel(bookData, lawKey)`. */
  function BookName(root: Node, lawKey: string): (r: string)
    ensures r != ""
    ensures Truthy(root.name) ==> r == root.name.value
  {
    OrElse(root.name.GetOr(""), NodeLabel(root, Some(lawKey)))
  }

  /** The records of one book; trails start empty below the book. */
  function BookArticles(lawKey: string, bookId: string, root: Node): seq<SearchableArticle> {
    Records(TrailOrder(root, []), lawKey, bookId, BookName(root, lawKey))
  }

  /** The records of the books `ids` of one law, book by book; an id without a book adds none. */
  function LawArticles(data: BookData, lawKey: string, ids: seq<string>): seq<SearchableArticle> {
    if ids == [] then []
    else
      LawArticles(data, lawKey, ids[..|ids| - 1])
      + match LoadBookDataSync(data, lawKey, ids[|ids| - 1])
        case Some(root) => BookArticles(lawKey, ids[|ids| - 1], root)
        case None => []
  }

  /** The records of every available book of the laws `keys`, law by law. */
  function Library(data: BookData, keys: seq<string>): seq<SearchableArticle> {
    if keys == [] then []
    else
      var k := keys[|keys| - 1];
      Library(data, keys[..|keys| - 1]) + LawArticles(data, k, GetAvailableBookIds(data, k))
  }

  /** The keys of the registered law sources, in registry order. */
  function LawKeys(): (r: seq<string>)
    ensures r == ["cpp", "dp"]
  {
    var sources := LawSources.GetLawSources();
    seq(|sources|, i requires 0 <= i < |sources| => sources[i].key)
  }

  /** Everything `loadAllArticlesSync` collects. */
  function Corpus(data: BookData): seq<SearchableArticle> {
    Library(data, LawKeys())
  }

  function GlobalIndex(data: BookData): FuseIndex<SearchableArticle> {
    FuseIndex(Corpus(data), FUSE_OPTIONS)
  }

  function HasLawKey(lawKey: string): SearchableArticle -> bool {
    (a: SearchableArticle) => a.lawKey == lawKey
  }

  // ---------------------------------------------------------------- law keys in the corpus

  lemma {:induction false} RecordsCarryLaw(trail: seq<(Node, seq<string>)>, lawKey: string, bookId: string, bookName: string)
    ensures forall a :: a in Records(trail, lawKey, bookId, bookName) ==> a.lawKey == lawKey
  {
    if trail != [] {
      RecordsCarryLaw(trail[1..], lawKey, bookId, bookName);
    }
  }

  lemma {:induction false} LawArticlesCarryLaw(data: BookData, lawKey: string, ids: seq<string>)
    ensures forall a :: a in LawArticles(data, lawKey, ids) ==> a.lawKey == lawKey
  {
    if ids != [] {
      LawArticlesCarryLaw(data, lawKey, ids[..|ids| - 1]);
      var book := LoadBookDataSync(data, lawKey, ids[|ids| - 1]);
      if book.Some? {
        RecordsCarryLaw(TrailOrder(book.value, []), lawKey, ids[|ids| - 1], BookName(book.value, lawKey));
      }
    }
  }

  /** Filtering one law's records by a key keeps them all or none. */
  lemma FilterLaw(data: BookData, k: string, lawKey: string)
    ensures var arts := LawArticles(data, k, GetAvailableBookIds(data, k));
      Filter(arts, HasLawKey(lawKey)) == if k == lawKey then arts else []
  {
    var arts := LawArticles(data, k, GetAvailableBookIds(data, k));
    LawArticlesCarryLaw(data, k, GetAvailableBookIds(data, k));
    FilterAll(arts, HasLawKey(lawKey), k == lawKey);
  }

  lemma {:induction false} FilterAll(s: seq<SearchableArticle>, p: SearchableArticle -> bool, keep: bool)
    requires forall a :: a in s ==> p(a) == keep
    ensures Filter(s, p) == if keep then s else []
  {
    if s != [] {
      assert s[0] in s;
      FilterAll(s[1..], p, keep);
    }
  }

  /** `getArticlesForLaw`: the records of a registered law are exactly those of its
      available books, book by book; an unknown key has none. */
  lemma ArticlesOfLaw(data: BookData, lawKey: string)
    ensures LawSources.IsValidLawSource(lawKey) ==>
      Filter(Corpus(data), HasLawKey(lawKey)) == LawArticles(data, lawKey, GetAvailableBookIds(data, lawKey))
    ensures !LawSources.IsValidLawSource(lawKey) ==> Filter(Corpus(data), HasLawKey(lawKey)) == []
  {
    LawSources.ValidIffRegistered(lawKey);
    var p := HasLawKey(lawKey);
    var cpp := LawArticles(data, "cpp", GetAvailableBookIds(data, "cpp"));
    var dp := LawArticles(data, "dp", GetAvailableBookIds(data, "dp"));
    var keys := LawKeys();
    assert keys[..1] == ["cpp"] && ["cpp"][..0] == [];
    assert Library(data, ["cpp"]) == [] + cpp == cpp;
    assert Corpus(data) == Library(data, ["cpp"]) + dp;
    FilterAppend(cpp, dp, p);
    FilterLaw(data, "cpp", lawKey);
    FilterLaw(data, "dp", lawKey);
  }

  // ---------------------------------------------------------------- searches

  /** `globalSearch(query, limit)`: nothing for a short query, otherwise one
      result per hit of the global index. */
  function GlobalSearchResults(data: BookData, search: FuseSearch<SearchableArticle>, query: string, limit: nat): (r: seq<SearchResult>)
    ensures |query| < MIN_QUERY_LENGTH ==> r == []
  {
    if |query| < MIN_QUERY_LENGTH then [] else ShapeArticleHits(search(GlobalIndex(data), query, Some(limit)))
  }

  /** `contextualSearch(lawKey, query, limit)`: as the global search, on a fresh
      index over the law's records only. */
  function ContextualSearchResults(data: BookData, search: FuseSearch<SearchableArticle>, lawKey: string, query: string, limit: nat): (r: seq<SearchResult>)
    ensures |query| < MIN_QUERY_LENGTH ==> r == []
  {
    if |query| < MIN_QUERY_LENGTH then []
    else ShapeArticleHits(search(FuseIndex(Filter(Corpus(data), HasLawKey(lawKey)), FUSE_OPTIONS), query, Some(limit)))
  }

  /** A search returns at most `limit` results when the index honours the limit. */
  lemma SearchesHonourLimit(data: BookData, search: FuseSearch<SearchableArticle>, lawKey: string, query: string, limit: nat)
    requires RespectsLimit(search)
    ensures |GlobalSearchResults(data, search, query, limit)| <= limit
    ensures |ContextualSearchResults(data, search, lawKey, query, limit)| <= limit
  {
    if |query| >= MIN_QUERY_LENGTH {
      assert |search(GlobalIndex(data), query, Some(limit))| <= limit;
      assert |search(FuseIndex(Filter(Corpus(data), HasLawKey(lawKey)), FUSE_OPTIONS), query, Some(limit))| <= limit;
    }
  }

  /** Every result of a contextual search belongs to the requested law. */
  lemma ContextualResultsStayInLaw(data: BookData, search: FuseSearch<SearchableArticle>, lawKey: string, query: string, limit: nat)
    requires HitsFromIndex(search)
    ensures forall r :: r in ContextualSearchResults(data, search, lawKey, query, limit) ==> r.lawKey == lawKey
  {
    if |query| >= MIN_QUERY_LENGTH {
      var idx := FuseIndex(Filter(Corpus(data), HasLawKey(lawKey)), FUSE_OPTIONS);
      var hits := search(idx, query, Some(limit));
      var rs := ContextualSearchResults(data, search, lawKey, query, limit);
      forall r | r in rs ensures r.lawKey == lawKey {
        var i :| 0 <= i < |rs| && rs[i] == r;
        assert hits[i].item in idx.docs;
        FilterMembers(Corpus(data), HasLawKey(lawKey), hits[i].item);
      }
    }
  }

  // ---------------------------------------------------------------- the memoised engine

  /** The module state of the global search: the corpus and the index, each
      computed on first use. The ghost counter `corpusBuilds` goes up by one
      each time `CollectCorpus` runs, so `Valid()` (at most one build) and the
      methods' `Builds` clauses say that the corpus is built at most once. */
  class SearchCache {
    const data: BookData
    var cachedArticles: Option<seq<SearchableArticle>>
    var cachedFuseIndex: Option<FuseIndex<SearchableArticle>>
    ghost var corpusBuilds: nat

    /** What is cached is what would be computed; the corpus was built at most
        once, and it is cached exactly when it was built. */
    ghost predicate Valid()
      reads this
    {
      (cachedArticles.Some? ==> cachedArticles.value == Corpus(data))
      && (cachedFuseIndex.Some? ==> cachedFuseIndex.value == GlobalIndex(data))
      && corpusBuilds <= 1
      && (cachedArticles.Some? <==> corpusBuilds == 1)
    }

    /** Between two states, the corpus was built only if it was not cached
        before, and then exactly once; a cached corpus is kept. */
    twostate predicate Builds()
      reads this
    {
      (corpusBuilds == old(corpusBuilds) || (old(cachedArticles).None? && corpusBuilds == old(corpusBuilds) + 1))
      && (old(cachedArticles).Some? ==> cachedArticles == old(cachedArticles))
    }

    constructor(data: BookData)
      ensures this.data == data && cachedArticles.None? && cachedFuseIndex.None? && Valid()
    {
      this.data := data;
      cachedArticles := None;
      cachedFuseIndex := None;
      corpusBuilds := 0;
    }

    /** `loadAllArticlesSync`: the cached corpus, built on the first call only. */
    method LoadAllArticlesSync() returns (allArticles: seq<SearchableArticle>)
      requires Valid()
      modifies this
      ensures Valid()
      ensures allArticles == Corpus(data) && cachedArticles == Some(allArticles)
      ensures cachedFuseIndex == old(cachedFuseIndex)
      ensures Builds()
      ensures old(cachedArticles).Some? ==> allArticles == old(cachedArticles).value && corpusBuilds == old(corpusBuilds)
    {
      if cachedArticles.Some? {
        return cachedArticles.value;
      }
      allArticles := CollectCorpus(data);
      cachedArticles := Some(allArticles);
      corpusBuilds := corpusBuilds + 1;
    }

    /** `getGlobalSearchIndex`: the cached index over the whole corpus. */
    method GetGlobalSearchIndex() returns (index: FuseIndex<SearchableArticle>)
      requires Valid()
      modifies this
      ensures Valid()
      ensures index == GlobalIndex(data) && cachedFuseIndex == Some(index)
      ensures Builds()
      ensures old(cachedArticles).Some? ==> corpusBuilds == old(corpusBuilds)
      ensures old(cachedFuseIndex).Some? ==> unchanged(this)
    {
      if cachedFuseIndex.Some? {
        return cachedFuseIndex.value;
      }
      var articles := LoadAllArticlesSync();
      index := FuseIndex(articles, FUSE_OPTIONS);
      cachedFuseIndex := Some(index);
    }

    /** `getAllArticles`. */
    method GetAllArticles() returns (articles: seq<SearchableArticle>)
      requires Valid()
      modifies this
      ensures Valid() && articles == Corpus(data) && cachedArticles.Some?
      ensures cachedFuseIndex == old(cachedFuseIndex) && Builds()
    {
      articles := LoadAllArticlesSync();
    }

    /** `getTotalArticleCount`: the size of the corpus. */
    method GetTotalArticleCount() returns (count: nat)
      requires Valid()
      modifies this
      ensures Valid() && count == |Corpus(data)| && cachedArticles.Some?
      ensures cachedFuseIndex == old(cachedFuseIndex) && Builds()
    {
      var articles := LoadAllArticlesSync();
      count := |articles|;
    }

    /** `globalSearch`: a short query returns nothing and touches no state. */
    method Search(query: string, limit: nat, search: FuseSearch<SearchableArticle>) returns (results: seq<SearchResult>)
      requires Valid()
      modifies this
      ensures Valid() && results == GlobalSearchResults(data, search, query, limit)
      ensures |query| < MIN_QUERY_LENGTH ==> unchanged(this)
      ensures Builds()
    {
      if |query| < MIN_QUERY_LENGTH {
        return [];
      }
      var fuse := GetGlobalSearchIndex();
      var hits := search(fuse, query, Some(limit));
      results := ShapeArticleHits(hits);
    }

    /** `contextualSearch`: a short query returns nothing and touches no state. */
    method ContextualSearch(lawKey: string, query: string, limit: nat, search: FuseSearch<SearchableArticle>)
      returns (results: seq<SearchResult>)
      requires Valid()
      modifies this
      ensures Valid() && results == ContextualSearchResults(data, search, lawKey, query, limit)
      ensures |query| < MIN_QUERY_LENGTH ==> unchanged(this)
      ensures cachedFuseIndex == old(cachedFuseIndex) && Builds()
    {
      if |query| < MIN_QUERY_LENGTH {
        return [];
      }
      var allArticles := LoadAllArticlesSync();
      var lawArticles := Filter(allArticles, HasLawKey(lawKey));
      var fuse := FuseIndex(lawArticles, FUSE_OPTIONS);
      var hits := search(fuse, query, Some(limit));
      results := ShapeArticleHits(hits);
    }

    /** `getArticlesForLaw`: the corpus records of one law. */
    method GetArticlesForLaw(lawKey: string) returns (articles: seq<SearchableArticle>)
      requires Valid()
      modifies this
      ensures Valid() && articles == Filter(Corpus(data), HasLawKey(lawKey))
      ensures cachedFuseIndex == old(cachedFuseIndex) && Builds()
    {
      var allArticles := LoadAllArticlesSync();
      articles := Filter(allArticles, HasLawKey(lawKey));
    }
  }

  /** The loop of `loadAllArticlesSync` over the law sources. */
  method CollectCorpus(data: BookData) returns (allArticles: seq<SearchableArticle>)
    ensures allArticles == Corpus(data)
  {
    allArticles := [];
    var lawSources := LawSources.GetLawSources();
    for s := 0 to |lawSources|
      invariant allArticles == Library(data, LawKeys()[..s])
    {
      var lawArticles := CollectLawArticles(data, lawSources[s].key);
      allArticles := allArticles + lawArticles;
      ghost var keys := LawKeys()[..s + 1];
      assert keys[..s] == LawKeys()[..s] && keys[s] == lawSources[s].key;
    }
    assert LawKeys()[..|lawSources|] == LawKeys();
  }

  /** The inner loop of `loadAllArticlesSync`: the records of each loaded book of one law. */
  method CollectLawArticles(data: BookData, lawKey: string) returns (lawArticles: seq<SearchableArticle>)
    ensures lawArticles == LawArticles(data, lawKey, GetAvailableBookIds(data, lawKey))
  {
    lawArticles := [];
    var bookIds := GetAvailableBookIds(data, lawKey);
    for b := 0 to |bookIds|
      invariant lawArticles == LawArticles(data, lawKey, bookIds[..b])
    {
      var bookData := LoadBookDataSync(data, lawKey, bookIds[b]);
      LawArticlesStep(data, lawKey, bookIds, b);
      if bookData.Some? {
        var bookName := OrElse(bookData.value.name.GetOr(""), NodeLabel(bookData.value, Some(lawKey)));
        var bookArticles := ExtractArticles(bookData.value, lawKey, bookIds[b], bookName, []);
        lawArticles := lawArticles + bookArticles;
      }
    }
    assert bookIds[..|bookIds|] == bookIds;
  }

  /** One more book id adds that book's records, when it loads. */
  lemma LawArticlesStep(data: BookData, lawKey: string, ids: seq<string>, b: nat)
    requires b < |ids|
    ensures var book := LoadBookDataSync(data, lawKey, ids[b]);
      LawArticles(data, lawKey, ids[..b + 1])
        == LawArticles(data, lawKey, ids[..b]) + (if book.Some? then BookArticles(lawKey, ids[b], book.value) else [])
  {
    assert ids[..b + 1][..b] == ids[..b];
    assert ids[..b + 1][b] == ids[b];
  }

  /** Every record `getArticlesForLaw` returns is of the requested law. */
  lemma ArticlesForLawMatchKey(data: BookData, lawKey: string, a: SearchableArticle)
    requires a in Filter(Corpus(data), HasLawKey(lawKey))
    ensures a.lawKey == lawKey && a in Corpus(data)
  {
    FilterMembers(Corpus(data), HasLawKey(lawKey), a);
  }

  // ---------------------------------------------------------------- the trail as written

  /** A string spread into an array (`[...s]`): one one-character string per character. */
  function SpreadChars(s: string): (r: seq<string>)
    ensures |r| == |s| && forall i :: 0 <= i < |s| ==> r[i] == [s[i]]
  {
    seq(|s|, i requires 0 <= i < |s| => [s[i]])
  }

  /** The records of one book as the corpus loop actually requests them: the book's
      title (`bookData.title || ""`) goes where the trail belongs. As long as no
      named node lies between the book and a node, that node's trail is still the
      title string; an article there makes `path.slice(1).join` fail, because a
      string has no `join`, and `None` stands for that error. Below a named node the
      trail has become the title's characters followed by the segments. */
  function AsWrittenBookArticles(lawKey: string, bookId: string, root: Node): Option<seq<SearchableArticle>> {
    var title := root.title.GetOr("");
    var trail := TrailOrder(root, SpreadChars(title));
    if exists i :: 0 <= i < |trail| && IsArticleNode(trail[i].0) && |trail[i].1| == |title| then None
    else Some(Records(trail, lawKey, bookId, BookName(root, lawKey)))
  }

  /** As written, a book whose root is itself an article cannot be indexed at all;
      as corrected, its record names the book as its chapter and has no section. */
  lemma AsWrittenFailsOnArticleBook(lawKey: string, bookId: string, root: Node)
    requires IsArticleNode(root)
    ensures AsWrittenBookArticles(lawKey, bookId, root).None?
    ensures var arts := BookArticles(lawKey, bookId, root);
      |arts| >= 1 && arts[0].chapterName == BookName(root, lawKey) && arts[0].sectionName.None?
  {
    var trail := TrailOrder(root, SpreadChars(root.title.GetOr("")));
    assert IsArticleNode(trail[0].0) && |trail[0].1| == |root.title.GetOr("")|;
  }

  /** The smallest book that shows the difference: titled "AB", no name, one
      chapter "C" holding article 1 with the single paragraph "x". */
  const EXAMPLE_ARTICLE: Node := Node(None, None, Some("1"), Some(["x"]), [], [], [], [], [])
  const EXAMPLE_CHAPTER: Node := Node(Some("C"), None, None, None, [], [], [], [EXAMPLE_ARTICLE], [])
  const EXAMPLE_BOOK: Node := Node(None, Some("AB"), None, None, [EXAMPLE_CHAPTER], [], [], [], [])

  /** A word without whitespace followed by one space trims to the word. */
  lemma TrimWordThenSpace(w: string)
    requires w != [] && forall i :: 0 <= i < |w| ==> !IsJsWhitespace(w[i])
    ensures Trim(w + " ") == w
  {
    var s := w + " ";
    assert s[0] == w[0];
    assert TrimStart(s) == s;
    assert s[|s| - 1] == ' ' && s[..|s| - 1] == w;
    assert TrimEnd(s) == TrimEnd(w);
  }

  /** The segment of a node with a one-word name and no title is that word. */
  lemma SegmentOfNameOnly(c: Node, w: string)
    requires c.name == Some(w) && c.title.None?
    requires w != [] && forall i :: 0 <= i < |w| ==> !IsJsWhitespace(w[i])
    ensures Segment(c) == w
  {
    assert Segment(c) == Trim(w + " " + "");
    assert w + " " + "" == w + " ";
    TrimWordThenSpace(w);
  }

  lemma ExampleSegment()
    ensures Segment(EXAMPLE_CHAPTER) == "C"
  {
    SegmentOfNameOnly(EXAMPLE_CHAPTER, "C");
  }

  /** The trail of a node with a single child: the node, then the child's trail. */
  lemma TrailOfOnlyChild(n: Node, c: Node, path: seq<string>)
    requires Children(n) == [c]
    ensures TrailOrder(n, path) == [(n, path)] + TrailOrder(c, ChildPath(path, c))
  {
    var below := TrailOrder(c, ChildPath(path, c));
    assert TrailsFrom(n, path, 1) == [];
    assert TrailsFrom(n, path, 0) == below + [];
    assert below + [] == below;
  }

  lemma ExampleArticleTrail(path: seq<string>)
    ensures TrailOrder(EXAMPLE_ARTICLE, path) == [(EXAMPLE_ARTICLE, path)]
  {
    assert Children(EXAMPLE_ARTICLE) == [];
  }

  lemma ExampleChapterTrail(path: seq<string>)
    ensures TrailOrder(EXAMPLE_CHAPTER, path) == [(EXAMPLE_CHAPTER, path), (EXAMPLE_ARTICLE, path)]
  {
    assert Children(EXAMPLE_CHAPTER) == [EXAMPLE_ARTICLE];
    assert ChildPath(path, EXAMPLE_ARTICLE) == path;
    TrailOfOnlyChild(EXAMPLE_CHAPTER, EXAMPLE_ARTICLE, path);
    ExampleArticleTrail(path);
  }

  lemma ExampleTrails(path: seq<string>)
    ensures TrailOrder(EXAMPLE_BOOK, path)
      == [(EXAMPLE_BOOK, path), (EXAMPLE_CHAPTER, path + ["C"]), (EXAMPLE_ARTICLE, path + ["C"])]
  {
    assert Children(EXAMPLE_BOOK) == [EXAMPLE_CHAPTER];
    TrailOfOnlyChild(EXAMPLE_BOOK, EXAMPLE_CHAPTER, path);
    ExampleChapterPath(path);
    ExampleChapterTrail(path + ["C"]);
  }

  lemma ExampleChapterPath(path: seq<string>)
    ensures ChildPath(path, EXAMPLE_CHAPTER) == path + ["C"]
  {
    ExampleSegment();
  }

  /** Only the article of the example makes a record. */
  lemma ExampleRecords(path: seq<string>, lawKey: string, bookId: string)
    ensures Records(TrailOrder(EXAMPLE_BOOK, path), lawKey, bookId, "AB")
      == [ArticleRecord(EXAMPLE_ARTICLE, lawKey, bookId, "AB", path + ["C"])]
  {
    ExampleTrails(path);
    var trail := TrailOrder(EXAMPLE_BOOK, path);
    assert trail[2..] == [(EXAMPLE_ARTICLE, path + ["C"])];
    assert Records(trail[2..], lawKey, bookId, "AB") == [ArticleRecord(EXAMPLE_ARTICLE, lawKey, bookId, "AB", path + ["C"])];
    assert Records(trail[1..], lawKey, bookId, "AB") == Records(trail[2..], lawKey, bookId, "AB");
  }

  /** The example's only article sits below the named chapter. */
  lemma ExampleArticleIsNested(path: seq<string>)
    ensures forall i :: (0 <= i < |TrailOrder(EXAMPLE_BOOK, path)| && IsArticleNode(TrailOrder(EXAMPLE_BOOK, path)[i].0)
      ==> |TrailOrder(EXAMPLE_BOOK, path)[i].1| == |path| + 1)
  {
    var t := TrailOrder(EXAMPLE_BOOK, path);
    ExampleTrails(path);
    assert !IsArticleNode(t[0].0) && !IsArticleNode(t[1].0);
    assert |t[2].1| == |path| + 1;
  }

  /** As written, the title's letters become the chapter and the section: the
      example's article is filed under chapter "A", section "B > C". */
  lemma AsWrittenTitleBecomesChapter()
    ensures AsWrittenBookArticles("cpp", "book_0", EXAMPLE_BOOK)
      == Some([SearchableArticle("1", "cpp", "book_0", "AB", "A", Some("B > C"), "x")])
  {
    ExampleAsWrittenTrail();
    ExampleRecords(["A", "B"], "cpp", "book_0");
    assert ["A", "B"] + ["C"] == ["A", "B", "C"];
    ExampleAsWrittenRecord();
  }

  /** As written, the example's trail starts from the title's letters, and no
      article sits at that depth. */
  lemma ExampleAsWrittenTrail()
    ensures AsWrittenBookArticles("cpp", "book_0", EXAMPLE_BOOK)
      == Some(Records(TrailOrder(EXAMPLE_BOOK, ["A", "B"]), "cpp", "book_0", "AB"))
  {
    assert SpreadChars("AB") == ["A", "B"];
    assert BookName(EXAMPLE_BOOK, "cpp") == "AB";
    ExampleArticleIsNested(["A", "B"]);
  }

  lemma ExampleAsWrittenRecord()
    ensures ArticleRecord(EXAMPLE_ARTICLE, "cpp", "book_0", "AB", ["A", "B", "C"])
      == SearchableArticle("1", "cpp", "book_0", "AB", "A", Some("B > C"), "x")
  {
    assert ["A", "B", "C"][1..] == ["B", "C"];
    assert Join(["B", "C"], " > ") == "B > C";
  }

  /** As corrected, the example's article is filed under chapter "C" with no section. */
  lemma CorrectedChapterFromTree()
    ensures BookArticles("cpp", "book_0", EXAMPLE_BOOK)
      == [SearchableArticle("1", "cpp", "book_0", "AB", "C", None, "x")]
  {
    assert BookName(EXAMPLE_BOOK, "cpp") == "AB";
    ExampleRecords([], "cpp", "book_0");
    assert [] + ["C"] == ["C"];
  }
}
