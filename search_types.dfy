/**
 * What the search code shares: the search result record, the shape of a Fuse.js
 * hit, and the context snippet cut around the first match.
 *
 * The fuzzy matcher itself is not modelled. A search is a function value of type
 * `FuseSearch<T>` that the caller supplies, from an index, a query and an optional
 * limit to a sequence of hits. Predicates below name the properties a caller may
 * rely on (hits come from the index, at most `limit` of them), and lemmas that
 * need them take them as preconditions.
 */
module SearchTypes {
  import opened Wrappers
  import opened Text
  import opened SeqUtil
  import opened DataLoader

  /** The matches of one key as Fuse reports them: inclusive `[start, end]` spans. */
  datatype FuseMatch = FuseMatch(key: Option<string>, indices: seq<(int, int)>)

  /** One hit: the indexed record, its score (0 is best) and its matches. */
  datatype Hit<T> = Hit(item: T, score: Option<real>, matches: Option<seq<FuseMatch>>)

  datatype FuseKey = FuseKey(name: string, weight: nat)

  /** The options that matter to the callers (the rest only tunes the ranking). */
  datatype FuseOptions = FuseOptions(keys: seq<FuseKey>, threshold: real, minMatchCharLength: nat, extendedSearch: bool)

  /** `new Fuse(docs, options)`: the index keeps the records it was built from. */
  datatype FuseIndex<T> = FuseIndex(docs: seq<T>, options: FuseOptions)

  /** `index.search(query, { limit })`; `None` stands for a call without a limit. */
  type FuseSearch<!T> = (FuseIndex<T>, string, Option<nat>) -> seq<Hit<T>>

  /** Every hit is one of the indexed records. */
  ghost predicate HitsFromIndex<T(!new)>(search: FuseSearch<T>) {
    forall idx: FuseIndex<T>, q: string, lim: Option<nat>, i: int :: 0 <= i < |search(idx, q, lim)| ==> search(idx, q, lim)[i].item in idx.docs
  }

  /** A search with a limit returns at most that many hits. */
  ghost predicate RespectsLimit<T(!new)>(search: FuseSearch<T>) {
    forall idx: FuseIndex<T>, q: string, lim: Option<nat> :: lim.Some? ==> |search(idx, q, lim)| <= lim.value
  }

  /** The weighted keys every search index of the application uses: the article
      number counts twice as much as the content. */
  const ARTICLE_KEYS: seq<FuseKey> := [FuseKey("articleNumber", 2), FuseKey("content", 1)]

  /** `lib/types`' search result; the optional fields are `undefined` when absent. */
  datatype SearchResult = SearchResult(
    articleNumber: string,
    lawKey: string,
    bookId: string,
    bookName: string,
    bookTitle: Option<string>,
    chapterName: string,
    chapterTitle: Option<string>,
    sectionName: Option<string>,
    sectionTitle: Option<string>,
    content: string,
    matchedText: string,
    score: real)

  // ---------------------------------------------------------------- the snippet

  const ELLIPSIS: string := "..."

  /** How many characters of context precede the match. */
  const CONTEXT_BEFORE: nat := 50

  function Max(a: int, b: int): int { if a >= b then a else b }

  function Min(a: int, b: int): int { if a <= b then a else b }

  /** The text around the span `[start, end]`: `CONTEXT_BEFORE` characters before
      it, `after` characters after its last one, with "..." where text was cut. */
  function Snippet(content: string, start: int, end: int, after: nat): (r: string)
    ensures |r| <= |content| + 2 * |ELLIPSIS|
  {
    var contextStart := Max(0, start - CONTEXT_BEFORE);
    var contextEnd := Min(|content|, end + after);
    (if contextStart > 0 then ELLIPSIS else "")
    + JsSlice(content, contextStart, contextEnd)
    + (if contextEnd < |content| then ELLIPSIS else "")
  }

  /** For a span inside the content, the snippet is the window of content around
      it, marked at the front exactly when text before the window was dropped and
      at the back exactly when text after it was dropped. */
  lemma SnippetWindow(content: string, start: int, end: int, after: nat)
    requires 0 <= start <= end < |content| && after >= 1
    ensures var cs := Max(0, start - CONTEXT_BEFORE); var ce := Min(|content|, end + after);
      cs <= start && end < ce <= |content|
      && Snippet(content, start, end, after)
         == (if start > CONTEXT_BEFORE then ELLIPSIS else "") + content[cs..ce]
            + (if end + after < |content| then ELLIPSIS else "")
  {
  }

  /** The matched characters always appear in the snippet. */
  lemma SnippetShowsMatch(content: string, start: int, end: int, after: nat)
    requires 0 <= start <= end < |content| && after >= 1
    ensures OccursIn(content[start..end + 1], Snippet(content, start, end, after))
  {
    SnippetWindow(content, start, end, after);
    var cs := Max(0, start - CONTEXT_BEFORE);
    var ce := Min(|content|, end + after);
    var front := if start > CONTEXT_BEFORE then ELLIPSIS else "";
    var back := if end + after < |content| then ELLIPSIS else "";
    var part := content[start..end + 1];
    var r := Snippet(content, start, end, after);
    assert r == front + content[cs..ce] + back;
    ThreeParts(content, cs, start, end + 1, ce);
    Regroup(front, content[cs..start], part, content[end + 1..ce], back);
    PartOfConcat(front + content[cs..start], part, content[end + 1..ce] + back);
  }

  lemma ThreeParts(s: string, i: nat, j: nat, k: nat, l: nat)
    requires i <= j <= k <= l <= |s|
    ensures s[i..l] == s[i..j] + s[j..k] + s[k..l]
  {
  }

  lemma Regroup(f: string, x: string, p: string, y: string, b: string)
    ensures f + (x + p + y) + b == (f + x) + p + (y + b)
  {
  }

  // ---------------------------------------------------------------- matched text

  predicate IsContentMatch(m: FuseMatch) {
    m.key == Some("content")
  }

  /** The span of the first match on the content key, when that match has one. */
  function ContentSpan(matches: Option<seq<FuseMatch>>): Option<(int, int)> {
    var ms := matches.GetOr([]);
    if |ms| == 0 then None
    else match FirstWhere(ms, IsContentMatch)
      case Some(m) => if |m.indices| > 0 then Some(m.indices[0]) else None
      case None => None
  }

  /** A span is taken from the earliest content match, and only from it; there is
      none when no match is on the content or the earliest one has no span. */
  lemma ContentSpanSpec(matches: Option<seq<FuseMatch>>)
    ensures var ms := matches.GetOr([]);
      ContentSpan(matches).Some? <==>
        exists i :: 0 <= i < |ms| && IsContentMatch(ms[i]) && |ms[i].indices| > 0
          && forall j :: 0 <= j < i ==> !IsContentMatch(ms[j])
    ensures var ms := matches.GetOr([]);
      ContentSpan(matches).Some? ==>
        exists i :: 0 <= i < |ms| && IsContentMatch(ms[i]) && |ms[i].indices| > 0
          && ms[i].indices[0] == ContentSpan(matches).value
  {
    var ms := matches.GetOr([]);
    FirstWhereSpec(ms, IsContentMatch);
    if FirstWhere(ms, IsContentMatch).Some? {
      var i :| 0 <= i < |ms| && ms[i] == FirstWhere(ms, IsContentMatch).value
        && forall j :: 0 <= j < i ==> !IsContentMatch(ms[j]);
      forall i' | 0 <= i' < |ms| && IsContentMatch(ms[i']) && (forall j :: 0 <= j < i' ==> !IsContentMatch(ms[j]))
        ensures i' == i
      {
      }
    }
  }

  /** The text shown for a hit: the context around the first content match with
      `after` characters of trailing context, or the whole content without one. */
  function MatchedText(content: string, matches: Option<seq<FuseMatch>>, after: nat): (r: string)
    ensures ContentSpan(matches).None? ==> r == content
  {
    match ContentSpan(matches)
    case Some(span) => Snippet(content, span.0, span.1, after)
    case None => content
  }

  /** `result.score || 0`: a missing score counts as a perfect one. */
  function Score(score: Option<real>): (r: real)
    ensures score.None? ==> r == 0.0
    ensures score.Some? ==> r == score.value
  {
    if score.Some? && score.value != 0.0 then score.value else 0.0
  }

  // ---------------------------------------------------------------- shaping a hit

  /** The search result for a hit on a data-loader record. That record declares no
      book, chapter or section title, so those fields are left undefined. */
  function ShapeArticleHit(h: Hit<SearchableArticle>): SearchResult {
    var item := h.item;
    SearchResult(item.articleNumber, item.lawKey, item.bookId, item.bookName, None,
      item.chapterName, None, item.sectionName, None, item.content,
      MatchedText(item.content, h.matches, 100), Score(h.score))
  }

  /** `results.map(...)`: one result per hit, in hit order. */
  function ShapeArticleHits(hits: seq<Hit<SearchableArticle>>): (r: seq<SearchResult>)
    ensures |r| == |hits|
  {
    seq(|hits|, i requires 0 <= i < |hits| => ShapeArticleHit(hits[i]))
  }

  /** The record a result was made from. */
  function ResultRecord(r: SearchResult): SearchableArticle {
    SearchableArticle(r.articleNumber, r.lawKey, r.bookId, r.bookName, r.chapterName, r.sectionName, r.content)
  }

  /** Shaping copies every field of the record unchanged, takes the hit's score or
      0, and cuts its snippet from the record's own content. */
  lemma ShapedHitsFollowHits(hits: seq<Hit<SearchableArticle>>)
    ensures |ShapeArticleHits(hits)| == |hits|
    ensures forall i :: 0 <= i < |hits| ==>
      ResultRecord(ShapeArticleHits(hits)[i]) == hits[i].item
      && ShapeArticleHits(hits)[i].score == hits[i].score.GetOr(0.0)
      && ShapeArticleHits(hits)[i].matchedText == MatchedText(hits[i].item.content, hits[i].matches, 100)
  {
  }
}
