# Qanun Docs core, modelled in Dafny

Qanun Docs is a browser for two Moroccan legal codes: the Code of Criminal
Procedure (`cpp`) and the Criminal Code (`dp`). Each code is a tree of books,
chapters, sections, branches, subsections and articles, loaded from static JSON.
This project models the logic that works on those trees and on search results:

- **Law registry** (`LawSources`): the two registered codes, lookup by key and
  by data path, and each code's word for "article".
- **Generic tree walking** (`DataLoader`):
  - the five child arrays of a node and their flat numbering;
  - node labels;
  - the first navigable node, lookup by article number, and collection of
    navigable nodes;
  - the "depth-index" path tokens and the contextual book URL, with their round
    trips;
  - the flattening of a book into searchable records;
  - the book table.
- **Typed tree utilities** (`LawUtils`): flattening a `Law` into article
  records, building the sidebar tree, finding an article, breadcrumbs, and
  previous/next navigation.
- **Search**:
  - the cached global index and contextual search (`GlobalSearch`, with a
    `SearchCache` class for the two module-level caches);
  - the older single-index engine (`Search`, class `SearchEngine`);
  - the snippet logic they share (`SearchTypes`);
  - escaping and highlighting (`SearchUtils`). The highlighter takes the
    opening and closing tags as parameters, so its lemmas hold for any pair of
    tags; `HighlightQuery` passes the two mark tags;
  - the two search hooks (`UseLawSearch`, `UseSearch` with class `SearchHook`).
- **UI state hooks**:
  - font size (`FontSizes`);
  - online status (`OnlineStatus`);
  - scroll direction (`ScrollDirections`);
  - keyboard shortcuts (`KeyboardNav`).
- **Service worker decisions** (`ServiceWorker`): which caches an activation
  deletes, which handler a fetch goes to, and what the data handler returns.

Functions that only walk a tree are Dafny functions. Code that loops and pushes
onto arrays is a `method` with loop invariants, proved equal to a specification
function. The properties are lemmas about those functions. Examples of such
methods: `getChildrenArrays`, `extractArticles`, `flattenArticles`,
`buildChapterChildren`, `findArticle` and `buildBreadcrumbs`.

Objects whose state changes become classes with `modifies` clauses: the search
caches, the search engine and the hooks' React state. The fuzzy matcher
(Fuse.js) is a function parameter (`FuseSearch`). Lemmas that need it to behave
name what they assume with the predicates `HitsFromIndex` and `RespectsLimit`.

Where the code's own error handling suggests one behaviour and the code does
another, the model follows what the code does. `parseNodePath`
(lib/data-loader.ts:399-410) wraps its parsing in a try/catch (lines 402-409)
that returns an empty path, which suggests that malformed input should give an
empty path. But nothing in the `try` block throws:

- the result has one entry per `_`-separated token;
- a token without a readable index gives `NaN`, modelled as `None`, and the
  result is not an empty path;
- the depth tag of each token is never checked.

The global search engine builds its corpus with an empty starting trail for each
book (`GlobalSearch.CollectLawArticles`). The source passes the book's title
there instead (lib/search/global-search.ts:57-63). The first row under
"## Findings" models the records as written, and "## Left out" names the members
that use the corrected records.

## Model

| member | source | states |
|---|---|---|
| LawSources.GetLawSources | lib/law-sources.ts:37-39 | the registry lists the Code of Criminal Procedure, then the Criminal Code |
| LawSources.GetLawSource | lib/law-sources.ts:45-47 | a source is found exactly for the keys "cpp" and "dp", and the source found carries the key it was looked up by and is registered |
| LawSources.GetLawSourceByPath | lib/law-sources.ts:53-55 | the source found has the requested data path and is registered; none is found exactly when no registered source has that path |
| LawSources.ValidIffRegistered | lib/law-sources.ts:61-63 | a key is valid exactly when the lookup finds a source, and exactly when it is "cpp" or "dp" |
| LawSources.GetArticleLabel | lib/law-sources.ts:70-73 | "المادة" for the procedure code, "الفصل" for the criminal code, the default word for any other key, never empty |
| DataLoader.GetAvailableBookIds | lib/data-loader.ts:73-79 | stated against the table: none when no entry has the law's key; otherwise the ids of the books of the first entry with that key, in order |
| DataLoader.RegistryBookIds | lib/data-loader.ts:49-71 | with the application's table, "cpp" has its nine book ids, "dp" its four, and every other key none |
| DataLoader.GetChildrenArrays | lib/data-loader.ts:97-110 | the loop returns exactly the specification's list of non-empty child arrays |
| DataLoader.ChildrenArraysSpec | lib/data-loader.ts:97-110 | each returned array is the node's collection under its key and is non-empty; keys come in `CHILDREN_KEYS` order; a key appears exactly when its collection is non-empty |
| DataLoader.ChildrenArraysFlatten | lib/data-loader.ts:97-110 | the returned arrays, concatenated, are all of the node's children in flat order |
| DataLoader.HasChildrenIff | lib/data-loader.ts:116-118 | a node has children exactly when its flat child list is non-empty |
| DataLoader.NodeLabel | lib/data-loader.ts:134-149 | the label is never empty, starts with the name when there is one, and ends with the title when there are both |
| DataLoader.ArticleNodeLabel | lib/data-loader.ts:144-147 | an unnamed, untitled numbered node is labelled "الفصل n" in the criminal code and "المادة n" otherwise |
| DataLoader.FindFirstArticle | lib/data-loader.ts:155-173 | the recursive search returns the first navigable node of the tree in pre-order, or none |
| DataLoader.LocateIsFirstInPreOrder | lib/data-loader.ts:185-216 | the node the depth-first search finds is the first pre-order node satisfying the predicate |
| DataLoader.LocateShape | lib/data-loader.ts:185-216 | a found node satisfies the predicate; its ancestor list and index list have equal length and extend the given ones; following the new indices from the root reaches the node, and each prefix reaches the matching ancestor |
| DataLoader.FindNodeByNumber | lib/data-loader.ts:185-216 | the recursive method returns exactly the specification's search for the number |
| DataLoader.FindNodeByNumberSpec | lib/data-loader.ts:185-216 | the result is the first pre-order node with that number, and none exactly when no node has it; its indices lead from the root to it, and its path starts at the root and lists its ancestors |
| DataLoader.CollectNavigableNodes | lib/data-loader.ts:222-238 | the accumulator is extended by the tree's navigable nodes in pre-order |
| DataLoader.CollectedAreNavigable | lib/data-loader.ts:222-238 | a node is collected exactly when it is in the tree and navigable |
| DataLoader.LoadBookData | lib/data-loader.ts:244-264 | a book is returned only for a registered law and an available id; for a registered law the result is that of the synchronous loader |
| DataLoader.LoadBookDataSync | lib/data-loader.ts:270-280 | a book is returned exactly when its id is among the law's available ids; it is the tree registered under that id in the law's entry, and it is the first book with that id in the first entry with that key |
| DataLoader.ExtractArticles | lib/data-loader.ts:308-348 | the recursive method returns exactly the records the specification derives from the tree walk with trails |
| DataLoader.ChapterName | lib/data-loader.ts:325 | the first trail segment when there is a non-empty one, otherwise the book name |
| DataLoader.SectionName | lib/data-loader.ts:326 | no section for a trail of at most one segment; otherwise the segments after the first joined by " > ", when that is not empty |
| DataLoader.ExtractedRecordsCarryTrail | lib/data-loader.ts:308-348 | every record is that of an article node reached from the root by flat child indices; its trail is the starting path followed by the segments of the named nodes on the way, which give its chapter and section |
| DataLoader.TrailOrderIsPreOrder | lib/data-loader.ts:331-345 | the trail walk visits the same nodes, in the same order, as the pre-order |
| DataLoader.ExtractedArticlesFollowPreOrder | lib/data-loader.ts:318-329 | there is one record per article node, in pre-order, carrying the node's number and its paragraphs joined by spaces |
| DataLoader.GenerateNodePath | lib/data-loader.ts:391-393 | the token is empty exactly when the path is empty |
| DataLoader.ParseNodePath | lib/data-loader.ts:399-410 | a non-empty token yields at least one entry |
| DataLoader.NodePathRoundTrip | lib/data-loader.ts:391-410 | parsing a generated token gives back every index of the path |
| DataLoader.FindNodeByPath | lib/data-loader.ts:416-443 | the loop follows the flat indices from the root and returns the node they lead to, or none when an index is out of range |
| DataLoader.BuildPathIndices | lib/data-loader.ts:449-474 | the recursive method returns the flat indices of the first occurrence of the target, appended to the given prefix |
| DataLoader.BuildThenFindPath | lib/data-loader.ts:416-474 | indices are built exactly when the target is in the tree, and following them leads back to the target |
| DataLoader.ContextualUrlRoundTrip | lib/data-loader.ts:485-496 | the URL starts with the book page and equals it exactly when the path is empty; otherwise its `expand` value parses back to the path |
| LawUtils.BookIdsDistinct | lib/law-utils.ts:18 | two book ids are equal exactly when the book positions are equal |
| LawUtils.SectionName | lib/law-utils.ts:64-66 | a nested section's name ends with its own name, and is prefixed by the parent's name and " - " when the parent has a name |
| LawUtils.PushArticles | lib/law-utils.ts:22-32 | the pushed records are the old ones followed by one record per article, in order |
| LawUtils.ProcessSection | lib/law-utils.ts:48-85 | the recursive method appends exactly the specification's records of the sections and their subsections |
| LawUtils.PushChapters | lib/law-utils.ts:17-39 | the chapter loop appends exactly the specification's records of the chapters |
| LawUtils.FlattenArticles | lib/law-utils.ts:7-42 | the method returns exactly the flattened law |
| LawUtils.FlattenedCount | lib/law-utils.ts:7-42 | the flattened law has one record per article of the tree |
| LawUtils.RecordsShape | lib/law-utils.ts:22-32 | each record of a list of articles carries the article's number, book, chapter and section, and its paragraphs joined |
| LawUtils.SectionRecordsShape | lib/law-utils.ts:48-85 | every record of a section carries its book and chapter and a section name, prefixed by the parent's name when the parent has one |
| LawUtils.SectionArticlesFirst | lib/law-utils.ts:68-83 | a section's own articles come before those of its subsections |
| LawUtils.DirectArticlesFirst | lib/law-utils.ts:22-37 | a chapter's direct articles come first and carry no section |
| LawUtils.ChapterListRecordsShape | lib/law-utils.ts:17-39 | every record of a chapter list names the given book and one of the listed chapters |
| LawUtils.BookListRecordsShape | lib/law-utils.ts:17-39 | every record of the book list carries a book of the law with the id of that book's position |
| LawUtils.FlattenedBookIds | lib/law-utils.ts:17-39 | every flattened record's book id is "book_i" for the position i of its book |
| LawUtils.SectionItems | lib/law-utils.ts:126-136 | there is one navigation item per section |
| LawUtils.BuildNavItems | lib/law-utils.ts:91-112 | there is one sidebar item per book |
| LawUtils.NavItemsLayout | lib/law-utils.ts:91-112 | book i's item has id "book_i", label "name: title", href "/book_i", starts collapsed, and has one child per chapter with the chapter's id and href |
| LawUtils.SectionItemsLayout | lib/law-utils.ts:126-136 | section item k has the id of the parent extended by the infix and k, the href of the book and that id, and the label "name: title" |
| LawUtils.ArticleItemsLayout | lib/law-utils.ts:139-147 | article item k has id "article_n", label "المادة n", href "/bookId/n" and no children |
| LawUtils.ChapterChildrenLayout | lib/law-utils.ts:118-150 | a chapter's children are its sections' items followed by its articles' items |
| LawUtils.SectionChildrenLayout | lib/law-utils.ts:156-188 | a section's children are its subsections' items followed by its articles' items |
| LawUtils.ChapterNavMatchesFlattened | lib/law-utils.ts:118-150 | the article links under a chapter in the sidebar are, as a multiset, the links of the chapter's flattened records |
| LawUtils.PushArticleItems | lib/law-utils.ts:139-147 | the loop appends exactly the specification's article items |
| LawUtils.PushSectionItems | lib/law-utils.ts:126-136 | the loop appends exactly the specification's section items |
| LawUtils.BuildSectionChildren | lib/law-utils.ts:156-188 | the method returns exactly the specification's section children |
| LawUtils.BuildChapterChildren | lib/law-utils.ts:118-150 | the method returns exactly the specification's chapter children |
| LawUtils.FindInSections | lib/law-utils.ts:230-251 | a found article has the requested number |
| LawUtils.FindInBooks | lib/law-utils.ts:194-224 | a found article has the requested number and its book is one of the law's books |
| LawUtils.FindArticleInSections | lib/law-utils.ts:230-251 | the loop with early return gives exactly the specification's search of the sections |
| LawUtils.FindArticle | lib/law-utils.ts:194-224 | the loop with early return gives exactly the specification's search of the law |
| LawUtils.FindInSectionsIsFirstRecord | lib/law-utils.ts:230-251 | the match found in a section list is the first of its flattened records with that number |
| LawUtils.FindInChaptersIsFirstRecord | lib/law-utils.ts:194-224 | the match found in a book's chapters is the first of their flattened records with that number |
| LawUtils.FindInBooksIsFirstRecord | lib/law-utils.ts:194-224 | the match found in the books is the first of their flattened records with that number |
| LawUtils.FindArticleIsFirstInFlattenOrder | lib/law-utils.ts:194-224 | no article is found exactly when no flattened record has the number; otherwise the match is the first such record in flattening order |
| LawUtils.BuildBreadcrumbs | lib/law-utils.ts:257-284 | home, book, chapter, the section when given, and the article when a number is given; each href extends the previous one, and the article's is the book href with the number |
| LawUtils.AllArticleNumbers | lib/law-utils.ts:290-293 | one number per article, the k-th being that of the k-th flattened record |
| LawUtils.GetArticleNavigation | lib/law-utils.ts:299-317 | an unknown number has neither a previous nor a next article |
| LawUtils.NavigationNeighbours | lib/law-utils.ts:299-317 | for the first occurrence at position i, the previous article is the number at i-1 and the next the number at i+1, when these exist |
| LawUtils.NavigationEnds | lib/law-utils.ts:299-317 | the first article has no previous one, and a last number that occurs only last has no next one |
| LawUtils.NavigationStepsUndoEachOther | lib/law-utils.ts:299-317 | with distinct numbers, going to the next article and then back returns to the start, and the other way round |
| SearchTypes.Snippet | lib/search/global-search.ts:124-130 | a snippet is never longer than the content plus two ellipses |
| SearchTypes.SnippetWindow | lib/search/global-search.ts:124-130 | the snippet is the content window from 50 characters before the match to `after` characters after it, with "..." before exactly when text was cut at the front and after exactly when text was cut at the back |
| SearchTypes.SnippetShowsMatch | lib/search/global-search.ts:124-130 | the matched characters always appear in the snippet |
| SearchTypes.ContentSpanSpec | lib/search/global-search.ts:117-124 | a span is taken exactly when some match is on the content with a span and no earlier match is; it is that match's first span |
| SearchTypes.MatchedText | lib/search/global-search.ts:120-132 | without a content span the whole content is shown |
| SearchTypes.Score | lib/search/global-search.ts:146 | a missing score is 0, a present one is kept |
| SearchTypes.ShapeArticleHits | lib/search/global-search.ts:115-148 | one result per hit |
| SearchTypes.ShapedHitsFollowHits | lib/search/global-search.ts:115-148 | result i copies hit i's record field by field, takes its score or 0, and cuts its snippet from that record's content |
| GlobalSearch.BookName | lib/search/global-search.ts:55 | the book name is never empty and is the tree's own name when it has one |
| GlobalSearch.LawKeys | lib/search/global-search.ts:47-49 | the laws are walked in registry order, "cpp" then "dp" |
| GlobalSearch.ArticlesOfLaw | lib/search/global-search.ts:212-215 | the corpus records of a registered law are exactly those of its available books, book by book; an unknown key has none |
| GlobalSearch.ArticlesForLawMatchKey | lib/search/global-search.ts:212-215 | every record returned for a law is in the corpus and has that law's key |
| GlobalSearch.GlobalSearchResults | lib/search/global-search.ts:107-149 | a query shorter than two characters has no results |
| GlobalSearch.ContextualSearchResults | lib/search/global-search.ts:155-206 | a query shorter than two characters has no results |
| GlobalSearch.SearchesHonourLimit | lib/search/global-search.ts:107-206 | when the index honours its limit, both searches return at most `limit` results |
| GlobalSearch.ContextualResultsStayInLaw | lib/search/global-search.ts:165-166 | when every hit comes from the index searched, every contextual result belongs to the requested law |
| GlobalSearch.CollectCorpus | lib/search/global-search.ts:46-66 | the loop over the law sources collects exactly the corpus, with each book's records built from an empty starting trail (the corrected records of the first Findings row) |
| GlobalSearch.CollectLawArticles | lib/search/global-search.ts:52-65 | the loop over a law's books collects exactly that law's records, book by book, each book starting from an empty trail where the source passes the title (the corrected records of the first Findings row) |
| GlobalSearch.SearchCache.constructor | lib/search/global-search.ts:34-35 | both caches start empty |
| GlobalSearch.SearchCache.LoadAllArticlesSync | lib/search/global-search.ts:41-75 | the result is the corpus, now cached; a cached corpus is returned as it is and the build counter does not move; a first call builds it exactly once; the index cache is untouched |
| GlobalSearch.SearchCache.GetGlobalSearchIndex | lib/search/global-search.ts:77-89 | the result is the index over the whole corpus, now cached; a cached index changes no state; the corpus is built at most once, and only when it was not cached |
| GlobalSearch.SearchCache.GetAllArticles | lib/search/global-search.ts:91-97 | the result is the corpus, which is now cached |
| GlobalSearch.SearchCache.GetTotalArticleCount | lib/search/global-search.ts:99-101 | the count is the size of the corpus |
| GlobalSearch.SearchCache.Search | lib/search/global-search.ts:107-149 | the result is the global search of the corpus; a short query changes no state; the corpus is built at most once and a cached corpus is kept |
| GlobalSearch.SearchCache.ContextualSearch | lib/search/global-search.ts:155-206 | the result is the contextual search over the law's records; a short query changes no state, and the global index is not built |
| GlobalSearch.SearchCache.GetArticlesForLaw | lib/search/global-search.ts:212-215 | the result is the corpus filtered by law key |
| GlobalSearch.SpreadChars | lib/search/global-search.ts:57-63 | spreading a string gives one one-character string per character |
| GlobalSearch.AsWrittenFailsOnArticleBook | lib/search/global-search.ts:57-63 | as written, a book whose root is an article cannot be indexed; as corrected, its record names the book as chapter and has no section |
| GlobalSearch.AsWrittenTitleBecomesChapter | lib/search/global-search.ts:57-63 | as written, the letters of the book title "AB" become chapter "A" and section "B > C" |
| GlobalSearch.CorrectedChapterFromTree | lib/search/global-search.ts:57-63 | as corrected, the same article is filed under its real chapter "C" with no section |
| Search.SearchResults | lib/search.ts:48-89 | there are no results before initialisation or for a query shorter than two characters |
| Search.SearchResultsFollowHits | lib/search.ts:55-88 | one result per hit, in order, carrying the hit's record with all its titles and its score or 0 |
| Search.Distinct | lib/search.ts:111-116 | de-duplication never lengthens the list |
| Search.DistinctSpec | lib/search.ts:111-116 | de-duplication keeps every element, adds none, and leaves no repeats |
| Search.Suggestions | lib/search.ts:103-117 | at most `limit` suggestions |
| Search.SuggestionsSpec | lib/search.ts:103-117 | suggestions are distinct article labels of hits; when there are at most `limit` distinct labels, every hit's label is offered |
| Search.SearchEngine.constructor | lib/search.ts:32-33 | the engine starts without an index and with nothing indexed |
| Search.SearchEngine.InitializeSearch | lib/search.ts:39-42 | the new records replace the old ones and the index is rebuilt over them |
| Search.SearchEngine.SearchArticles | lib/search.ts:48-89 | the result is the specification's search; an uninitialised engine finds nothing; an initialised one searches the index over exactly the indexed records |
| Search.SearchEngine.SearchByArticleNumber | lib/search.ts:95-97 | the first indexed record with that number, and none exactly when no record has it |
| Search.SearchEngine.GetSearchSuggestions | lib/search.ts:103-117 | nothing before initialisation or for an empty query; otherwise the de-duplicated labels of the limited hits over the indexed records, cut to the limit |
| Search.SearchEngine.IsSearchInitialized | lib/search.ts:123-125 | initialised exactly when there is an index |
| Search.SearchEngine.GetIndexedCount | lib/search.ts:131-133 | the number of records indexed |
| SearchUtils.FormatLegalPath | lib/search-utils.ts:9-20 | "name • title" with both, the name alone without a title, "" without a name |
| SearchUtils.EscapeRegExp | lib/search-utils.ts:26-28 | escaping at most doubles the length |
| SearchUtils.EscapedPatternIsLiteral | lib/search-utils.ts:26-28 | an escaped string, read as a pattern, matches exactly that string |
| SearchUtils.EscapeHtml | lib/search-utils.ts:34-43 | escaping never shortens the text |
| SearchUtils.EscapeHtmlIsSafe | lib/search-utils.ts:34-43 | escaped text contains no raw `<`, `>`, `"` or `'` |
| SearchUtils.RenderedEscape | lib/search-utils.ts:34-43 | a browser shows escaped text as the original |
| SearchUtils.HighlightQuery | lib/search-utils.ts:52-67 | a query shorter than two characters gives the escaped text unmarked |
| SearchUtils.StripMarkMatches | lib/search-utils.ts:58-66 | for any pair of well-formed tags wrapped around each match, deleting the tags from the marked text gives the text back |
| SearchUtils.MarkTagsAreTags | lib/search-utils.ts:58-66 | the opening and closing mark tags are each a `<`, then no `>`, then a `>`, so a browser reads each one whole |
| SearchUtils.HighlightIsEscapedTextPlusTags | lib/search-utils.ts:52-67 | the highlighted output is the escaped text with mark tags inserted, so its only markup is those tags |
| SearchUtils.HighlightSplitsEntity | lib/search-utils.ts:58-66 | as written, the text "&" highlighted for "amp;" shows as "&amp;" |
| SearchUtils.HighlightQueryCorrected | lib/search-utils.ts:52-67 | as corrected, a query shorter than two characters gives the escaped text |
| SearchUtils.CorrectedShowsText | lib/search-utils.ts:52-67 | matching the raw text and escaping each piece shows the original text |
| SearchUtils.HighlightCorrectedShowsText | lib/search-utils.ts:52-67 | corrected highlighting always shows the original text, whatever the query |
| UseLawSearch.UseLawSearch | hooks/useLawSearch.ts:18-39 | the hook holds the law's corpus records, and an index over them exactly when there is at least one |
| UseLawSearch.Search | hooks/useLawSearch.ts:42-86 | nothing for a query shorter than two characters or without an index |
| UseLawSearch.TotalArticles | hooks/useLawSearch.ts:88-92 | the count is the number of the law's records |
| UseLawSearch.IsReady | hooks/useLawSearch.ts:88-92 | ready exactly when the law has records |
| UseLawSearch.EmptyLawFindsNothing | hooks/useLawSearch.ts:23-46 | a law without records is never ready and finds nothing |
| UseLawSearch.SearchIsContextualSearch | hooks/useLawSearch.ts:42-86 | for a law with records the hook's search is the global contextual search limited to twenty |
| UseLawSearch.SearchStaysInLawAndCapped | hooks/useLawSearch.ts:42-86 | every result belongs to the law, and there are at most twenty |
| UseLawSearch.SearchFollowsHits | hooks/useLawSearch.ts:50-83 | each result copies its hit's record and score or 0, with a snippet of 50 characters before and 100 after the first content span |
| UseSearch.ResolveOptions | hooks/useSearch.ts:30-47 | missing options take their defaults, and every key has weight one |
| UseSearch.DefaultOptions | hooks/useSearch.ts:30-34 | with no options: threshold 0.3, two characters, keys content then article number |
| UseSearch.FirstSpanIgnoresKey | hooks/useSearch.ts:64-73 | the hook's span does not depend on the first match's key, and coincides with the other searches' span when that key is the content |
| UseSearch.HookMatchedText | hooks/useSearch.ts:64-73 | without a span the whole content is shown |
| UseSearch.HookMatchedTextShowsMatch | hooks/useSearch.ts:64-73 | the matched characters of a span inside the content always appear in the snippet |
| UseSearch.SearchResults | hooks/useSearch.ts:50-91 | nothing for a query shorter than the minimum match length, and never more than twenty results |
| UseSearch.SearchKeepsFirstHits | hooks/useSearch.ts:57-88 | the results are the first twenty hits of an unlimited search, in order, each copying its record and score |
| UseSearch.SearchHook.constructor | hooks/useSearch.ts:26-28 | empty query, no results, not searching |
| UseSearch.SearchHook.Search | hooks/useSearch.ts:50-91 | returns the specification's results; `isSearching` ends false after a search that runs and is untouched otherwise |
| UseSearch.SearchHook.HandleSearch | hooks/useSearch.ts:94-101 | the new query and its results become the state; `isSearching` is false after a search that runs and untouched after a short query |
| UseSearch.SearchHook.ClearSearch | hooks/useSearch.ts:104-107 | the query is empty and there are no results |
| FontSizes.Rank | hooks/useFontSize.ts:32 | every size has a position in the order, holding that size |
| FontSizes.RankOfPosition | hooks/useFontSize.ts:32 | the sizes of the order are distinct |
| FontSizes.StoredSize | hooks/useFontSize.ts:42-48 | a stored value is adopted exactly when it names one of the four sizes |
| FontSizes.IncreaseStepsUp | hooks/useFontSize.ts:73-81 | increasing moves one step up the order, and stays at the largest size |
| FontSizes.DecreaseStepsDown | hooks/useFontSize.ts:84-92 | decreasing moves one step down the order, and stays at the smallest size |
| FontSizes.StepsUndoEachOther | hooks/useFontSize.ts:73-92 | a step up that moved is undone by a step down, and the other way round |
| FontSizes.CanIncreaseFrom | hooks/useFontSize.ts:100 | a size can grow exactly when it is not the largest |
| FontSizes.CanDecreaseFrom | hooks/useFontSize.ts:101 | a size can shrink exactly when it is not the smallest |
| FontSizes.FontSizeState.constructor | hooks/useFontSize.ts:38-39 | starts at the default size, not mounted |
| FontSizes.FontSizeState.Mount | hooks/useFontSize.ts:42-48 | mounted; adopts a valid stored size and keeps the current one otherwise |
| FontSizes.FontSizeState.SetFontSize | hooks/useFontSize.ts:68-70 | the size becomes the one given |
| FontSizes.FontSizeState.IncreaseFontSize | hooks/useFontSize.ts:73-81 | one step up when possible, no change at the largest size |
| FontSizes.FontSizeState.DecreaseFontSize | hooks/useFontSize.ts:84-92 | one step down when possible, no change at the smallest size |
| FontSizes.FontSizeState.ResetFontSize | hooks/useFontSize.ts:95-97 | back to the default size |
| FontSizes.FontSizeState.CanIncrease | hooks/useFontSize.ts:100 | true exactly below the largest size |
| FontSizes.FontSizeState.CanDecrease | hooks/useFontSize.ts:101 | true exactly above the smallest size |
| OnlineStatus.OnlineStatusHook.constructor | hooks/useOnlineStatus.ts:15-18 | starts online, never offline |
| OnlineStatus.OnlineStatusHook.Mount | hooks/useOnlineStatus.ts:41-44 | takes the browser's flag, and has been offline exactly when it is offline now |
| OnlineStatus.OnlineStatusHook.HandleOnline | hooks/useOnlineStatus.ts:20-25 | online, having been offline if it was offline or had been; the invariant "offline now implies was offline" is kept |
| OnlineStatus.OnlineStatusHook.HandleOffline | hooks/useOnlineStatus.ts:27-32 | offline and remembered as having been offline |
| OnlineStatus.OnlineStatusHook.IsOnline | hooks/useOnlineStatus.ts:62-65 | the online flag alone |
| ScrollDirections.ScrollDirectionHook.constructor | hooks/useScrollDirection.ts:19-24 | threshold 10 and enabled by default; no direction and position 0 at first |
| ScrollDirections.ScrollDirectionHook.Effect | hooks/useScrollDirection.ts:28-34 | a disabled hook reports no direction; an enabled one takes the current position as reference |
| ScrollDirections.ScrollDirectionHook.UpdateScrollDirection | hooks/useScrollDirection.ts:36-53 | a move of at least the threshold sets the direction and the reference; a smaller one changes nothing; at the top the direction is up; "down" is only ever reported away from the top |
| KeyboardNav.CallIfProvided | hooks/useKeyboardNav.ts:40-64 | a callback is called exactly when it was supplied, and it is the one for the action |
| KeyboardNav.HandleKeyDown | hooks/useKeyboardNav.ts:21-65 | only supplied callbacks are called; a disabled hook does nothing; in a typing target only Escape acts, without preventing the default |
| KeyboardNav.OutsideTypingTargets | hooks/useKeyboardNav.ts:40-64 | outside typing targets: Ctrl/Cmd+K opens search, the arrows without modifiers go to the previous and next article, Escape calls its callback; each calls only if supplied |
| KeyboardNav.PreventDefaultExactly | hooks/useKeyboardNav.ts:21-65 | the default is prevented exactly for the three navigation shortcuts outside typing targets |
| KeyboardNav.Shortcuts | hooks/useKeyboardNav.ts:79-101 | four shortcuts: k, ArrowLeft, ArrowRight and Escape |
| KeyboardNav.ShortcutsMatchHandler | hooks/useKeyboardNav.ts:79-101 | pressing each listed shortcut calls exactly the action the list gives it |
| ServiceWorker.CachesToDeleteSpec | public/sw.js:71-76 | an activation deletes exactly the application's caches of other versions; the current two and other applications' caches survive |
| ServiceWorker.IsStaticAsset | public/sw.js:255-264 | static exactly when the path ends with a listed extension or lies under `/_next/static/` or `/icons/` |
| ServiceWorker.FetchStrategy | public/sw.js:96-113 | a cross-origin request is left to the browser, and only such a request is |
| ServiceWorker.StrategyPrecedence | public/sw.js:96-113 | for a same-origin request the first applicable rule wins: navigation, then data files, then static assets, then the network-first handler |
| ServiceWorker.PrecachedDataUsesDataHandler | public/sw.js:23-37 | every precached data URL, when not a navigation, goes to the data handler |
| ServiceWorker.DataUrlIsDataPath | public/sw.js:23-37 | every `/data/<dir>/<file>.json` URL starts with `/data/` and ends with `.json` |
| ServiceWorker.HandleDataRequest | public/sw.js:162-196 | a cached response wins, then the network's, then the offline 503 response; a network response is cached exactly when it is 2xx |
| ServiceWorker.FailedResponseServedNotCached | public/sw.js:162-196 | a failed network response is returned when nothing was cached, and not cached |

## Left out

- Fuse.js ranking: the fuzzy matcher is a parameter. Only the limit and the origin of its hits are assumed, and only by the lemmas that name them.
- The law data: the JSON books are an arbitrary `BookData` table. `RegistryBookIds` pins only the book ids the application registers.
- Async wrappers: `getAllBooks` (lib/data-loader.ts:286-288) and `getAllSearchableArticles` (lib/data-loader.ts:354-382) add nothing beyond the synchronous loaders and `extractArticles`. `loadBookData`'s promise and its dynamic import are modelled as a plain function.
- DataLoader.FindNodeByPath: takes natural-number indices. A `NaN` or negative index from a malformed URL is not modelled.
- DataLoader.BuildPathIndices: compares nodes structurally. The source compares object identity (`===`), so two equal subtrees are told apart there and not here.
- DataLoader.ParseNodePath: `parseInt`'s `NaN` is `None`. Only ASCII digits are read; `parseInt`'s handling of other Unicode input is not modelled. Its results are exact integers, so the precision `parseInt` loses on digit strings beyond 2^53 is not modelled.
- DataLoader.LoadBookDataSync: `BOOK_DATA[lawKey]` and `lawBooks[bookId]` are property lookups, which also find inherited properties. For example, `loadBookDataSync("cpp", "constructor")` returns `Object` in the source and `None` here. The model finds only the table's own entries.
- GlobalSearch.CollectCorpus: builds each book's records from an empty starting trail. The source passes the book's title (lib/search/global-search.ts:57-63), so these are the corrected records, not the ones the program builds (first row under "## Findings"; `AsWrittenBookArticles` models those).
- GlobalSearch.CollectLawArticles: the same corrected records, book by book.
- GlobalSearch.SearchCache.LoadAllArticlesSync: caches and returns the corrected corpus. `GetGlobalSearchIndex`, `GetAllArticles`, `GetTotalArticleCount`, `ContextualSearch` and `GetArticlesForLaw` are built on it, so they work on the corrected records too.
- GlobalSearch.SearchCache.Search: searches the index over the corrected corpus.
- String lengths: JavaScript counts UTF-16 code units, while Dafny strings count characters. The `query.length < 2` checks, the snippet slicing at Fuse's match indices and `content.length` agree with the source only for text without characters outside the Basic Multilingual Plane.
- Default arguments: `limit = 20` in `globalSearch`, `contextualSearch` and `searchArticles`, and `limit = 5` in `getSearchSuggestions`, are not modelled; every caller passes a limit. `limit` is a `nat`, so negative and fractional limits are not modelled either.
- ScrollDirections.ScrollDirectionHook.UpdateScrollDirection: `window.scrollY` is a floating-point number in the browser. The model takes an integer position.
- LawSources.ValidIffRegistered: `key in LAW_SOURCES` also accepts inherited property names such as "toString". The model covers the registry's own keys only.
- LawUtils: an optional array that is absent (`sections?`, `articles?`, `subsections?`) is modelled as empty. The source treats both alike.
- SearchUtils.HighlightQuery: matching is exact. The case-insensitive `i` flag is not modelled, because case folding of Arabic and Latin text is outside the model.
- SearchUtils.Rendered: a browser's reading of markup is modelled only as far as the highlighter's output needs. A `<` opens a tag that runs through the next `>`; the five entities `escapeHtml` writes are decoded; every other character shows as itself. Comments, quoted `>` inside attributes and other entities are not modelled.
- UseSearch.SearchResults: the hook's records are modelled with the fields it reads. The structural cast to `SearchResult`, which leaves book ids and titles undefined, is not.
- ServiceWorker.PrecachedDataUsesDataHandler: the precache list is a constant of its own. It is not tied to the book table.
- Service worker I/O: installing and precaching (public/sw.js:40-62), cache deletion itself, and the navigation, static and network-first handlers (public/sw.js:120-160, 202-250) are left out. So is the `message` handler (public/sw.js:267-275). Only their decisions are modelled: which caches go, which handler runs, and what the data handler returns.
- Browser state: `localStorage`, `document` writes, event-listener registration, `requestAnimationFrame` throttling and React rendering. The hooks' state changes are modelled as methods called with the values those APIs deliver.
- `FONT_SIZE_CONFIG` (hooks/useFontSize.ts:8-30): floating-point scale factors that only feed CSS.
- `useTheme`, `useGlobalSearch`, the pages and components, and the icon script: thin wrappers or presentation with no logic of their own.

## Findings

| source | as written | input that shows it | evidently intended | confidence | as-written member | corrected member |
|---|---|---|---|---|---|---|
| lib/search/global-search.ts:57-63 | the book title (a string) is passed where `extractArticles` expects the path array, so its characters become the first path segments | a book titled "AB" whose chapter "C" holds article 1: the record gets chapter "A" and section "B > C"; a book whose root is itself an article fails | start the path empty, so chapters and sections come from the tree | not executed | GlobalSearch.AsWrittenTitleBecomesChapter | GlobalSearch.CorrectedChapterFromTree |
| lib/search-utils.ts:58-66 | the query is matched in the already-escaped text, so a mark tag can land inside an entity | text "&", query "amp;": the output `&<mark>amp;</mark>` shows as "&amp;" | match in the raw text and escape each piece, so the displayed text is unchanged | not executed | SearchUtils.HighlightSplitsEntity | SearchUtils.HighlightCorrectedShowsText |
