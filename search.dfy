/**
 * The stand-alone search engine: module state holding the index and the indexed
 * records, set by `initializeSearch`, and the searches over it.
 */
module Search {
  import opened Wrappers
  import opened SeqUtil
  import opened SearchTypes

  /** The record this engine indexes; unlike the data loader's, it declares the
      book, chapter and section titles. */
  datatype IndexedArticle = IndexedArticle(
    articleNumber: string,
    lawKey: string,
    bookName: string,
    bookTitle: string,
    bookId: string,
    chapterName: string,
    chapterTitle: string,
    sectionName: Option<string>,
    sectionTitle: Option<string>,
    content: string)

  /** The index options: as the global search's, with extended query syntax. */
  const SEARCH_OPTIONS: FuseOptions := FuseOptions(ARTICLE_KEYS, 0.3, 2, true)

  const MIN_QUERY_LENGTH: nat := 2

  /** The prefix of every suggestion: the word for "article". */
  const SUGGESTION_PREFIX: string := "المادة "

  // ---------------------------------------------------------------- results

  function ShapeIndexedHit(h: Hit<IndexedArticle>): SearchResult {
    var item := h.item;
    SearchResult(item.articleNumber, item.lawKey, item.bookId, item.bookName, Some(item.bookTitle),
      item.chapterName, Some(item.chapterTitle), item.sectionName, item.sectionTitle, item.content,
      MatchedText(item.content, h.matches, 100), Score(h.score))
  }

  /** The record a result was made from. */
  function IndexedRecord(r: SearchResult): IndexedArticle {
    IndexedArticle(r.articleNumber, r.lawKey, r.bookName, r.bookTitle.GetOr(""), r.bookId, r.chapterName,
      r.chapterTitle.GetOr(""), r.sectionName, r.sectionTitle, r.content)
  }

  /** `searchArticles`: nothing before initialisation or for a short query,
      otherwise one result per hit, in hit order. */
  function SearchResults(fuse: Option<FuseIndex<IndexedArticle>>, search: FuseSearch<IndexedArticle>,
                         query: string, limit: nat): (r: seq<SearchResult>)
    ensures fuse.None? || |query| < MIN_QUERY_LENGTH ==> r == []
  {
    if fuse.None? || |query| < MIN_QUERY_LENGTH then []
    else
      var hits := search(fuse.value, query, Some(limit));
      seq(|hits|, i requires 0 <= i < |hits| => ShapeIndexedHit(hits[i]))
  }

  /** Each result carries its hit's record unchanged, every title included, and
      the hit's score or 0. */
  lemma SearchResultsFollowHits(fuse: FuseIndex<IndexedArticle>, search: FuseSearch<IndexedArticle>, query: string, limit: nat)
    requires |query| >= MIN_QUERY_LENGTH
    ensures var hits := search(fuse, query, Some(limit));
      var rs := SearchResults(Some(fuse), search, query, limit);
      |rs| == |hits|
      && forall i :: 0 <= i < |hits| ==> IndexedRecord(rs[i]) == hits[i].item && rs[i].score == hits[i].score.GetOr(0.0)
  {
  }

  // ---------------------------------------------------------------- suggestions

  /** The elements of `s` without repeats, each at its first occurrence (a `Set`
      iterates in insertion order). */
  function Distinct(s: seq<string>): (r: seq<string>)
    ensures |r| <= |s|
  {
    if s == [] then []
    else
      var d := Distinct(s[..|s| - 1]);
      if s[|s| - 1] in d then d else d + [s[|s| - 1]]
  }

  /** `Distinct` keeps every element once and adds nothing. */
  lemma {:induction false} DistinctSpec(s: seq<string>)
    ensures forall x :: x in Distinct(s) <==> x in s
    ensures forall i, j :: 0 <= i < j < |Distinct(s)| ==> Distinct(s)[i] != Distinct(s)[j]
  {
    if s != [] {
      DistinctSpec(s[..|s| - 1]);
      assert s == s[..|s| - 1] + [s[|s| - 1]];
    }
  }

  function SuggestionLabels(hits: seq<Hit<IndexedArticle>>): (r: seq<string>)
    ensures |r| == |hits|
  {
    seq(|hits|, i requires 0 <= i < |hits| => SUGGESTION_PREFIX + hits[i].item.articleNumber)
  }

  /** `Array.from(suggestions).slice(0, limit)`. */
  function Suggestions(hits: seq<Hit<IndexedArticle>>, limit: nat): (r: seq<string>)
    ensures |r| <= limit
  {
    var d := Distinct(SuggestionLabels(hits));
    if |d| <= limit then d else d[..limit]
  }

  /** The suggestions are distinct article labels of hits, at most `limit` of them,
      and every hit's label is among them when fewer than `limit` labels exist. */
  lemma SuggestionsSpec(hits: seq<Hit<IndexedArticle>>, limit: nat)
    ensures forall i, j :: 0 <= i < j < |Suggestions(hits, limit)| ==> Suggestions(hits, limit)[i] != Suggestions(hits, limit)[j]
    ensures forall x :: x in Suggestions(hits, limit) ==> x in SuggestionLabels(hits)
    ensures |Distinct(SuggestionLabels(hits))| <= limit ==>
      forall i :: 0 <= i < |hits| ==> SUGGESTION_PREFIX + hits[i].item.articleNumber in Suggestions(hits, limit)
  {
    var labels := SuggestionLabels(hits);
    DistinctSpec(labels);
    var d := Distinct(labels);
    if |d| > limit {
      forall x | x in d[..limit] ensures x in labels {
        var k :| 0 <= k < limit && d[k] == x;
        assert d[k] in d;
      }
    }
    if |d| <= limit {
      forall i | 0 <= i < |hits| ensures SUGGESTION_PREFIX + hits[i].item.articleNumber in Suggestions(hits, limit) {
        assert labels[i] in labels;
      }
    }
  }

  // ---------------------------------------------------------------- the engine

  /** The module state: `fuseInstance` and `indexedArticles`. */
  class SearchEngine {
    var fuseInstance: Option<FuseIndex<IndexedArticle>>
    var indexedArticles: seq<IndexedArticle>

    /** Before initialisation there is no index and nothing is indexed. */
    constructor()
      ensures fuseInstance.None? && indexedArticles == []
      ensures !IsSearchInitialized() && GetIndexedCount() == 0 && Valid()
    {
      fuseInstance := None;
      indexedArticles := [];
    }

    /** The index always covers exactly the indexed records: every method keeps
        this, and the searches rely on it to search the indexed records. */
    ghost predicate Valid()
      reads this
    {
      fuseInstance.Some? ==> fuseInstance.value == FuseIndex(indexedArticles, SEARCH_OPTIONS)
    }

    /** `initializeSearch`: the new records replace the old ones, and the index is rebuilt over them. */
    method InitializeSearch(articles: seq<IndexedArticle>)
      modifies this
      ensures indexedArticles == articles && fuseInstance == Some(FuseIndex(articles, SEARCH_OPTIONS))
      ensures Valid() && IsSearchInitialized() && GetIndexedCount() == |articles|
    {
      indexedArticles := articles;
      fuseInstance := Some(FuseIndex(articles, SEARCH_OPTIONS));
    }

    /** `searchArticles`. */
    method SearchArticles(query: string, limit: nat, search: FuseSearch<IndexedArticle>) returns (results: seq<SearchResult>)
      requires Valid()
      ensures results == SearchResults(fuseInstance, search, query, limit)
      ensures !IsSearchInitialized() ==> results == []
      ensures IsSearchInitialized() ==>
        results == SearchResults(Some(FuseIndex(indexedArticles, SEARCH_OPTIONS)), search, query, limit)
    {
      if fuseInstance.None? || |query| < MIN_QUERY_LENGTH {
        return [];
      }
      var hits := search(fuseInstance.value, query, Some(limit));
      results := seq(|hits|, i requires 0 <= i < |hits| => ShapeIndexedHit(hits[i]));
    }

    /** `searchByArticleNumber`: the first indexed record with that number, if any. */
    method SearchByArticleNumber(articleNumber: string) returns (r: Option<IndexedArticle>)
      ensures r.Some? ==> r.value.articleNumber == articleNumber && r.value in indexedArticles
      ensures r.Some? ==> exists i :: (0 <= i < |indexedArticles| && indexedArticles[i] == r.value
        && forall j :: 0 <= j < i ==> indexedArticles[j].articleNumber != articleNumber)
      ensures r.None? <==> forall a :: a in indexedArticles ==> a.articleNumber != articleNumber
    {
      var p := (a: IndexedArticle) => a.articleNumber == articleNumber;
      r := FirstWhere(indexedArticles, p);
      FirstWhereSpec(indexedArticles, p);
    }

    /** `getSearchSuggestions`: fills an insertion-ordered set with one label per hit. */
    method GetSearchSuggestions(query: string, limit: nat, search: FuseSearch<IndexedArticle>) returns (r: seq<string>)
      requires Valid()
      ensures fuseInstance.None? || |query| < 1 ==> r == []
      ensures fuseInstance.Some? && |query| >= 1 ==>
        r == Suggestions(search(FuseIndex(indexedArticles, SEARCH_OPTIONS), query, Some(limit)), limit)
    {
      if fuseInstance.None? || |query| < 1 {
        return [];
      }
      var results := search(fuseInstance.value, query, Some(limit));
      var suggestions: seq<string> := [];
      for i := 0 to |results|
        invariant suggestions == Distinct(SuggestionLabels(results)[..i])
      {
        var suggestion := SUGGESTION_PREFIX + results[i].item.articleNumber;
        assert SuggestionLabels(results)[..i + 1] == SuggestionLabels(results)[..i] + [suggestion];
        if suggestion !in suggestions {
          suggestions := suggestions + [suggestion];
        }
      }
      assert SuggestionLabels(results)[..|results|] == SuggestionLabels(results);
      r := if |suggestions| <= limit then suggestions else suggestions[..limit];
    }

    /** `isSearchInitialized`. */
    function IsSearchInitialized(): (r: bool)
      reads this
      ensures r <==> fuseInstance.Some?
    {
      fuseInstance.Some?
    }

    /** `getIndexedCount`. */
    function GetIndexedCount(): (r: nat)
      reads this
      ensures r == |indexedArticles|
    {
      |indexedArticles|
    }
  }
}
