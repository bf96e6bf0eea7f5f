/**
 * The per-law search hook: the records of one law, an index over them (none
 * when the law has no records), and a search capped at twenty results.
 *
 * React memoisation only caches these values; here they are computed directly
 * from the book data, the law key and the query.
 */
module UseLawSearch {
  import opened Wrappers
  import opened SeqUtil
  import opened DataLoader
  import opened SearchTypes
  import opened GlobalSearch

  /** The hook's index options, written out in the hook; equal to the global search's. */
  const LAW_FUSE_OPTIONS: FuseOptions := FuseOptions(ARTICLE_KEYS, 0.3, 2, false)

  /** How many hits a search asks the index for. */
  const RESULT_LIMIT: nat := 20

  /** What the hook holds for one law: its records and the index over them. */
  datatype LawSearch = LawSearch(lawArticles: seq<SearchableArticle>, fuse: Option<FuseIndex<SearchableArticle>>)

  /** `useLawSearch(lawKey)`: the law's records from the global corpus, and an
      index over them exactly when there is at least one. */
  function UseLawSearch(data: BookData, lawKey: string): (r: LawSearch)
    ensures r.lawArticles == Filter(Corpus(data), HasLawKey(lawKey))
    ensures r.fuse.None? <==> r.lawArticles == []
    ensures r.fuse.Some? ==> r.fuse.value == FuseIndex(r.lawArticles, LAW_FUSE_OPTIONS)
  {
    var lawArticles := Filter(Corpus(data), HasLawKey(lawKey));
    LawSearch(lawArticles, if |lawArticles| == 0 then None else Some(FuseIndex(lawArticles, LAW_FUSE_OPTIONS)))
  }

  /** The hook's `search`: nothing for a short query or without an index,
      otherwise one result per hit of a search limited to twenty. */
  function Search(h: LawSearch, search: FuseSearch<SearchableArticle>, query: string): (r: seq<SearchResult>)
    ensures |query| < 2 || h.fuse.None? ==> r == []
  {
    if |query| < 2 || h.fuse.None? then []
    else ShapeArticleHits(search(h.fuse.value, query, Some(RESULT_LIMIT)))
  }

  function TotalArticles(h: LawSearch): (r: nat)
    ensures r == |h.lawArticles|
  {
    |h.lawArticles|
  }

  /** `isReady`: the law has records. */
  function IsReady(h: LawSearch): (r: bool)
    ensures r <==> TotalArticles(h) > 0
  {
    |h.lawArticles| > 0
  }

  /** A law without records is never searched: every query finds nothing. */
  lemma EmptyLawFindsNothing(data: BookData, lawKey: string, search: FuseSearch<SearchableArticle>, query: string)
    requires Filter(Corpus(data), HasLawKey(lawKey)) == []
    ensures !IsReady(UseLawSearch(data, lawKey))
    ensures Search(UseLawSearch(data, lawKey), search, query) == []
  {
  }

  /** For a law with records, the hook's search is the contextual search of the
      global engine with a limit of twenty. */
  lemma SearchIsContextualSearch(data: BookData, lawKey: string, search: FuseSearch<SearchableArticle>, query: string)
    requires IsReady(UseLawSearch(data, lawKey))
    ensures Search(UseLawSearch(data, lawKey), search, query) == ContextualSearchResults(data, search, lawKey, query, RESULT_LIMIT)
  {
    assert LAW_FUSE_OPTIONS == FUSE_OPTIONS;
  }

  /** Every result is a record of the requested law, and there are at most twenty. */
  lemma SearchStaysInLawAndCapped(data: BookData, lawKey: string, search: FuseSearch<SearchableArticle>, query: string)
    requires HitsFromIndex(search) && RespectsLimit(search)
    ensures forall r :: r in Search(UseLawSearch(data, lawKey), search, query) ==> r.lawKey == lawKey
    ensures |Search(UseLawSearch(data, lawKey), search, query)| <= RESULT_LIMIT
  {
    var h := UseLawSearch(data, lawKey);
    if IsReady(h) {
      SearchIsContextualSearch(data, lawKey, search, query);
      ContextualResultsStayInLaw(data, search, lawKey, query, RESULT_LIMIT);
      SearchesHonourLimit(data, search, lawKey, query, RESULT_LIMIT);
    }
  }

  /** Each result copies its hit's record, takes its score or 0, and cuts a snippet
      from the first content span with fifty characters before and a hundred after. */
  lemma SearchFollowsHits(data: BookData, lawKey: string, search: FuseSearch<SearchableArticle>, query: string)
    requires IsReady(UseLawSearch(data, lawKey)) && |query| >= 2
    ensures var h := UseLawSearch(data, lawKey);
      var hits := search(h.fuse.value, query, Some(RESULT_LIMIT));
      var rs := Search(h, search, query);
      |rs| == |hits|
      && forall i :: 0 <= i < |hits| ==>
        ResultRecord(rs[i]) == hits[i].item
        && rs[i].score == hits[i].score.GetOr(0.0)
        && rs[i].matchedText == MatchedText(hits[i].item.content, hits[i].matches, 100)
  {
    var h := UseLawSearch(data, lawKey);
    ShapedHitsFollowHits(search(h.fuse.value, query, Some(RESULT_LIMIT)));
  }
}
