/**
 * The generic search hook: a search over a caller-supplied list of records with
 * optional Fuse settings, and the React state `query`, `results` and
 * `isSearching` that its handlers update.
 */
module UseSearch {
  import opened Wrappers
  import opened Text
  import opened SearchTypes

  /** The hook's own record type (no book id and no titles). */
  datatype HookArticle = HookArticle(
    articleNumber: string,
    lawKey: string,
    bookName: string,
    chapterName: string,
    sectionName: Option<string>,
    content: string)

  /** The object the hook builds for a hit: only the fields it sets. */
  datatype HookResult = HookResult(
    articleNumber: string,
    lawKey: string,
    bookName: string,
    chapterName: string,
    sectionName: Option<string>,
    content: string,
    matchedText: string,
    score: real)

  /** The caller's options; `None` is an option left undefined. */
  datatype UseSearchOptions = UseSearchOptions(threshold: Option<real>, minMatchCharLength: Option<nat>, keys: Option<seq<string>>)

  const DEFAULT_THRESHOLD: real := 0.3
  const DEFAULT_MIN_MATCH_CHAR_LENGTH: nat := 2
  const DEFAULT_KEYS: seq<string> := ["content", "articleNumber"]

  /** How many results a search keeps. */
  const MAX_RESULTS: nat := 20

  /** Trailing context of this hook's snippet. */
  const CONTEXT_AFTER: nat := 50

  /** The index options after destructuring with defaults; keys given by name
      weigh the same. */
  function ResolveOptions(options: UseSearchOptions): (r: FuseOptions)
    ensures r.threshold == options.threshold.GetOr(DEFAULT_THRESHOLD)
    ensures r.minMatchCharLength == options.minMatchCharLength.GetOr(DEFAULT_MIN_MATCH_CHAR_LENGTH)
    ensures |r.keys| == |options.keys.GetOr(DEFAULT_KEYS)|
    ensures forall i :: 0 <= i < |r.keys| ==> r.keys[i] == FuseKey(options.keys.GetOr(DEFAULT_KEYS)[i], 1)
    ensures !r.extendedSearch
  {
    var keys := options.keys.GetOr(DEFAULT_KEYS);
    FuseOptions(seq(|keys|, i requires 0 <= i < |keys| => FuseKey(keys[i], 1)),
      options.threshold.GetOr(DEFAULT_THRESHOLD), options.minMatchCharLength.GetOr(DEFAULT_MIN_MATCH_CHAR_LENGTH), false)
  }

  /** With no options, the defaults: threshold 0.3, two characters, content then number. */
  lemma DefaultOptions()
    ensures ResolveOptions(UseSearchOptions(None, None, None))
      == FuseOptions([FuseKey("content", 1), FuseKey("articleNumber", 1)], 0.3, 2, false)
  {
  }

  /** The first span of the first match, whatever its key. */
  function FirstSpan(matches: Option<seq<FuseMatch>>): Option<(int, int)> {
    var ms := matches.GetOr([]);
    if |ms| > 0 && |ms[0].indices| > 0 then Some(ms[0].indices[0]) else None
  }

  /** The span does not depend on which key the first match is on; when that key
      is the content, it is the span the other searches use. */
  lemma FirstSpanIgnoresKey(m: FuseMatch, rest: seq<FuseMatch>, key: Option<string>)
    ensures FirstSpan(Some([m] + rest)) == FirstSpan(Some([FuseMatch(key, m.indices)] + rest))
    ensures IsContentMatch(m) ==> FirstSpan(Some([m] + rest)) == ContentSpan(Some([m] + rest))
  {
    var ms := [m] + rest;
    assert ms[0] == m;
    if IsContentMatch(m) {
      assert ms[..1] == [m];
    }
  }

  /** The text shown for a hit: the window around the first span with fifty
      characters on each side, or the whole content. */
  function HookMatchedText(content: string, matches: Option<seq<FuseMatch>>): (r: string)
    ensures FirstSpan(matches).None? ==> r == content
  {
    match FirstSpan(matches)
    case Some(span) => Snippet(content, span.0, span.1, CONTEXT_AFTER)
    case None => content
  }

  /** The matched characters of a span inside the content always show. */
  lemma HookMatchedTextShowsMatch(content: string, matches: Option<seq<FuseMatch>>)
    requires FirstSpan(matches).Some?
    requires var span := FirstSpan(matches).value; 0 <= span.0 <= span.1 < |content|
    ensures var span := FirstSpan(matches).value;
      OccursIn(content[span.0..span.1 + 1], HookMatchedText(content, matches))
  {
    var span := FirstSpan(matches).value;
    SnippetShowsMatch(content, span.0, span.1, CONTEXT_AFTER);
  }

  function ShapeHookHit(h: Hit<HookArticle>): HookResult {
    var item := h.item;
    HookResult(item.articleNumber, item.lawKey, item.bookName, item.chapterName, item.sectionName, item.content,
      HookMatchedText(item.content, h.matches), Score(h.score))
  }

  /** `search(searchQuery)`: nothing for a query shorter than the minimum match
      length, otherwise the first twenty hits of an unlimited search, shaped. */
  function SearchResults(articles: seq<HookArticle>, options: UseSearchOptions, search: FuseSearch<HookArticle>, query: string): (r: seq<HookResult>)
    ensures |query| < ResolveOptions(options).minMatchCharLength ==> r == []
    ensures |r| <= MAX_RESULTS
  {
    var opts := ResolveOptions(options);
    if |query| < opts.minMatchCharLength then []
    else
      var hits := search(FuseIndex(articles, opts), query, None);
      var shaped := seq(|hits|, i requires 0 <= i < |hits| => ShapeHookHit(hits[i]));
      if |shaped| <= MAX_RESULTS then shaped else shaped[..MAX_RESULTS]
  }

  /** The results are the first twenty hits, in order, each copying its record. */
  lemma SearchKeepsFirstHits(articles: seq<HookArticle>, options: UseSearchOptions, search: FuseSearch<HookArticle>, query: string)
    requires |query| >= ResolveOptions(options).minMatchCharLength
    ensures var hits := search(FuseIndex(articles, ResolveOptions(options)), query, None);
      var rs := SearchResults(articles, options, search, query);
      |rs| == Min(|hits|, MAX_RESULTS)
      && forall i :: 0 <= i < |rs| ==>
        var it := hits[i].item;
        rs[i] == HookResult(it.articleNumber, it.lawKey, it.bookName, it.chapterName, it.sectionName, it.content,
          HookMatchedText(it.content, hits[i].matches), hits[i].score.GetOr(0.0))
  {
  }

  /** The hook's React state. */
  class SearchHook {
    const articles: seq<HookArticle>
    const options: UseSearchOptions
    var query: string
    var results: seq<HookResult>
    var isSearching: bool

    /** The initial state: empty query, no results, not searching. */
    constructor(articles: seq<HookArticle>, options: UseSearchOptions)
      ensures this.articles == articles && this.options == options
      ensures query == "" && results == [] && !isSearching
    {
      this.articles := articles;
      this.options := options;
      query := "";
      results := [];
      isSearching := false;
    }

    /** `search`: raises and lowers `isSearching` around a search that runs. */
    method Search(searchQuery: string, search: FuseSearch<HookArticle>) returns (r: seq<HookResult>)
      modifies this
      ensures r == SearchResults(articles, options, search, searchQuery)
      ensures query == old(query) && results == old(results)
      ensures isSearching == (if |searchQuery| < ResolveOptions(options).minMatchCharLength then old(isSearching) else false)
    {
      var opts := ResolveOptions(options);
      if |searchQuery| < opts.minMatchCharLength {
        return [];
      }
      isSearching := true;
      var fuseResults := search(FuseIndex(articles, opts), searchQuery, None);
      var searchResults := seq(|fuseResults|, i requires 0 <= i < |fuseResults| => ShapeHookHit(fuseResults[i]));
      isSearching := false;
      r := if |searchResults| <= MAX_RESULTS then searchResults else searchResults[..MAX_RESULTS];
    }

    /** `handleSearch`: the new query and its results become the state. */
    method HandleSearch(newQuery: string, search: FuseSearch<HookArticle>)
      modifies this
      ensures query == newQuery && results == SearchResults(articles, options, search, newQuery)
      ensures isSearching == (if |newQuery| < ResolveOptions(options).minMatchCharLength then old(isSearching) else false)
    {
      query := newQuery;
      var searchResults := Search(newQuery, search);
      results := searchResults;
    }

    /** `clearSearch`: empty query and no results. */
    method ClearSearch()
      modifies this
      ensures query == "" && results == [] && isSearching == old(isSearching)
    {
      query := "";
      results := [];
    }
  }
}
