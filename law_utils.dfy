/**
 * The typed law tree (book, chapter, section and subsection, article) and the
 * walks over it: the flattened article list for search indexing, the sidebar
 * navigation items, the lookup of an article by number, breadcrumbs, and the
 * previous/next navigation in reading order.
 *
 * An optional child array (`articles?`, `sections?`, `subsections?`) is the
 * empty sequence when absent: every walk here only iterates over it, and an
 * absent array and an empty one are iterated alike.
 */
module LawUtils {
  import opened Wrappers
  import opened Text
  import opened SeqUtil

  datatype Article = Article(number: string, paragraphs: seq<string>)

  datatype Section = Section(name: string, title: string, articles: seq<Article>, subsections: seq<Section>)

  datatype Chapter = Chapter(name: string, title: string, sections: seq<Section>, articles: seq<Article>)

  datatype Book = Book(name: string, title: string, chapters: seq<Chapter>)

  datatype Law = Law(title: string, lawNumber: string, amendment: string, books: seq<Book>)

  /** One record of the flattened list; `sectionName` is absent for an article
      placed directly in its chapter. */
  datatype FlatArticle = FlatArticle(
    articleNumber: string,
    bookName: string,
    bookId: string,
    chapterName: string,
    sectionName: Option<string>,
    content: string)

  // ---------------------------------------------------------------- flattening

  /** The id a book gets from its position. */
  function BookId(bookIndex: nat): string {
    "book_" + NatToString(bookIndex)
  }

  /** Book ids are distinct: different positions never share an id. */
  lemma BookIdsDistinct(i: nat, j: nat)
    ensures BookId(i) == BookId(j) <==> i == j
  {
    if BookId(i) == BookId(j) {
      assert NatToString(i) == BookId(i)[5..];
      assert NatToString(j) == BookId(j)[5..];
      DigitsValueOfNatToString(i);
      DigitsValueOfNatToString(j);
    }
  }

  /** The record of one article. */
  function Record(article: Article, bookName: string, bookId: string, chapterName: string, sectionName: Option<string>): FlatArticle {
    FlatArticle(article.number, bookName, bookId, chapterName, sectionName, Join(article.paragraphs, " "))
  }

  /** The records of a list of articles, in order. */
  function Records(articles: seq<Article>, bookName: string, bookId: string, chapterName: string, sectionName: Option<string>): (r: seq<FlatArticle>)
    ensures |r| == |articles|
  {
    if articles == [] then []
    else [Record(articles[0], bookName, bookId, chapterName, sectionName)] + Records(articles[1..], bookName, bookId, chapterName, sectionName)
  }

  /** A section's displayed name: prefixed by its parent's name when that is a
      non-empty string. */
  function SectionName(parentSectionName: Option<string>, name: string): (r: string)
    ensures EndsWith(r, name)
  {
    if Truthy(parentSectionName) then parentSectionName.value + " - " + name else name
  }

  /** The records `processSection` pushes for a list of sections: each section's
      own articles, then its subsections', then the next section's. */
  function SectionListRecords(sections: seq<Section>, bookName: string, bookId: string, chapterName: string, parentSectionName: Option<string>): seq<FlatArticle>
    decreases sections
  {
    if sections == [] then []
    else
      SectionRecords(sections[0], bookName, bookId, chapterName, parentSectionName)
      + SectionListRecords(sections[1..], bookName, bookId, chapterName, parentSectionName)
  }

  function SectionRecords(section: Section, bookName: string, bookId: string, chapterName: string, parentSectionName: Option<string>): seq<FlatArticle>
    decreases section
  {
    var sectionName := SectionName(parentSectionName, section.name);
    Records(section.articles, bookName, bookId, chapterName, Some(sectionName))
      + SectionListRecords(section.subsections, bookName, bookId, chapterName, Some(sectionName))
  }

  /** A chapter's records: its direct articles first, then those of its sections. */
  function ChapterRecords(chapter: Chapter, bookName: string, bookId: string): seq<FlatArticle> {
    Records(chapter.articles, bookName, bookId, chapter.name, None)
      + SectionListRecords(chapter.sections, bookName, bookId, chapter.name, None)
  }

  function ChapterListRecords(chapters: seq<Chapter>, bookName: string, bookId: string): seq<FlatArticle> {
    if chapters == [] then []
    else ChapterRecords(chapters[0], bookName, bookId) + ChapterListRecords(chapters[1..], bookName, bookId)
  }

  /** The records of the books from position `from` on. */
  function BookListRecords(books: seq<Book>, from: nat): seq<FlatArticle> {
    if books == [] then []
    else ChapterListRecords(books[0].chapters, books[0].name, BookId(from)) + BookListRecords(books[1..], from + 1)
  }

  /** The list `flattenArticles` returns. */
  function Flattened(law: Law): seq<FlatArticle> {
    BookListRecords(law.books, 0)
  }

  /** The `forEach` that pushes one record per article. */
  method PushArticles(articles: seq<FlatArticle>, list: seq<Article>, bookName: string, bookId: string, chapterName: string,
                      sectionName: Option<string>)
    returns (pushed: seq<FlatArticle>)
    ensures pushed == articles + Records(list, bookName, bookId, chapterName, sectionName)
  {
    pushed := articles;
    var k := 0;
    while k < |list|
      invariant k <= |list|
      invariant articles + Records(list, bookName, bookId, chapterName, sectionName)
        == pushed + Records(list[k..], bookName, bookId, chapterName, sectionName)
    {
      var article := list[k];
      assert list[k..][1..] == list[k + 1..];
      pushed := pushed + [FlatArticle(article.number, bookName, bookId, chapterName, sectionName, Join(article.paragraphs, " "))];
      k := k + 1;
    }
    assert list[k..] == [];
  }

  /** `processSection`: pushes the records of `sections` (and of their
      subsections, recursively) onto `articles`. */
  method ProcessSection(sections: seq<Section>, bookName: string, bookId: string, chapterName: string,
                        articles: seq<FlatArticle>, parentSectionName: Option<string>)
    returns (pushed: seq<FlatArticle>)
    ensures pushed == articles + SectionListRecords(sections, bookName, bookId, chapterName, parentSectionName)
    decreases sections
  {
    pushed := articles;
    var i := 0;
    while i < |sections|
      invariant i <= |sections|
      invariant articles + SectionListRecords(sections, bookName, bookId, chapterName, parentSectionName)
        == pushed + SectionListRecords(sections[i..], bookName, bookId, chapterName, parentSectionName)
    {
      assert sections[i..][1..] == sections[i + 1..];
      ghost var before := pushed;
      ghost var head := SectionRecords(sections[i], bookName, bookId, chapterName, parentSectionName);
      ghost var rest := SectionListRecords(sections[i + 1..], bookName, bookId, chapterName, parentSectionName);
      assert SectionListRecords(sections[i..], bookName, bookId, chapterName, parentSectionName) == head + rest;
      pushed := PushSection(pushed, sections[i], bookName, bookId, chapterName, parentSectionName);
      AppendAssoc(before, head, rest);
      i := i + 1;
    }
    assert sections[i..] == [];
  }

  /** One step of `processSection`'s `forEach`: the section's own articles under
      its displayed name, then its subsections. */
  method PushSection(articles: seq<FlatArticle>, section: Section, bookName: string, bookId: string, chapterName: string,
                     parentSectionName: Option<string>)
    returns (pushed: seq<FlatArticle>)
    ensures pushed == articles + SectionRecords(section, bookName, bookId, chapterName, parentSectionName)
    decreases section
  {
    var sectionName := if Truthy(parentSectionName) then parentSectionName.value + " - " + section.name else section.name;
    assert sectionName == SectionName(parentSectionName, section.name);
    pushed := PushArticles(articles, section.articles, bookName, bookId, chapterName, Some(sectionName));
    pushed := ProcessSection(section.subsections, bookName, bookId, chapterName, pushed, Some(sectionName));
    AppendAssoc(articles, Records(section.articles, bookName, bookId, chapterName, Some(sectionName)),
      SectionListRecords(section.subsections, bookName, bookId, chapterName, Some(sectionName)));
  }

  /** One chapter's direct articles, then the articles of its sections. */
  method PushChapter(articles: seq<FlatArticle>, chapter: Chapter, bookName: string, bookId: string)
    returns (pushed: seq<FlatArticle>)
    ensures pushed == articles + ChapterRecords(chapter, bookName, bookId)
  {
    pushed := PushArticles(articles, chapter.articles, bookName, bookId, chapter.name, None);
    pushed := ProcessSection(chapter.sections, bookName, bookId, chapter.name, pushed, None);
    AppendAssoc(articles, Records(chapter.articles, bookName, bookId, chapter.name, None),
      SectionListRecords(chapter.sections, bookName, bookId, chapter.name, None));
  }

  /** The `forEach` over one book's chapters: each chapter's direct articles,
      then the articles of its sections. */
  method PushChapters(articles: seq<FlatArticle>, chapters: seq<Chapter>, bookName: string, bookId: string)
    returns (pushed: seq<FlatArticle>)
    ensures pushed == articles + ChapterListRecords(chapters, bookName, bookId)
  {
    pushed := articles;
    var j := 0;
    while j < |chapters|
      invariant j <= |chapters|
      invariant articles + ChapterListRecords(chapters, bookName, bookId)
        == pushed + ChapterListRecords(chapters[j..], bookName, bookId)
    {
      assert chapters[j..][1..] == chapters[j + 1..];
      ghost var before := pushed;
      ghost var head := ChapterRecords(chapters[j], bookName, bookId);
      ghost var rest := ChapterListRecords(chapters[j + 1..], bookName, bookId);
      assert ChapterListRecords(chapters[j..], bookName, bookId) == head + rest;
      pushed := PushChapter(pushed, chapters[j], bookName, bookId);
      AppendAssoc(before, head, rest);
      j := j + 1;
    }
    assert chapters[j..] == [];
  }

  /** `flattenArticles`: every article of the law, book by book and chapter by
      chapter, in reading order. */
  method FlattenArticles(law: Law) returns (articles: seq<FlatArticle>)
    ensures articles == Flattened(law)
  {
    articles := [];
    var bookIndex := 0;
    while bookIndex < |law.books|
      invariant bookIndex <= |law.books|
      invariant Flattened(law) == articles + BookListRecords(law.books[bookIndex..], bookIndex)
    {
      var book := law.books[bookIndex];
      assert law.books[bookIndex..][1..] == law.books[bookIndex + 1..];
      var bookId := "book_" + NatToString(bookIndex);
      ghost var before := articles;
      ghost var head := ChapterListRecords(book.chapters, book.name, bookId);
      ghost var rest := BookListRecords(law.books[bookIndex + 1..], bookIndex + 1);
      assert BookListRecords(law.books[bookIndex..], bookIndex) == head + rest;
      articles := PushChapters(articles, book.chapters, book.name, bookId);
      AppendAssoc(before, head, rest);
      bookIndex := bookIndex + 1;
    }
    assert law.books[bookIndex..] == [];
  }

  // ---------------------------------------------------------------- what the flattened list holds

  /** The number of articles reachable from a list of sections, counted over the
      tree independently of the flattening. */
  function SectionListArticleCount(sections: seq<Section>): nat
    decreases sections
  {
    if sections == [] then 0 else SectionArticleCount(sections[0]) + SectionListArticleCount(sections[1..])
  }

  function SectionArticleCount(section: Section): nat
    decreases section
  {
    |section.articles| + SectionListArticleCount(section.subsections)
  }

  function ChapterListArticleCount(chapters: seq<Chapter>): nat {
    if chapters == [] then 0
    else |chapters[0].articles| + SectionListArticleCount(chapters[0].sections) + ChapterListArticleCount(chapters[1..])
  }

  function BookListArticleCount(books: seq<Book>): nat {
    if books == [] then 0 else ChapterListArticleCount(books[0].chapters) + BookListArticleCount(books[1..])
  }

  /** Every article reachable through chapters, sections and subsections. */
  function ArticleCount(law: Law): nat {
    BookListArticleCount(law.books)
  }

  lemma {:induction false} SectionListRecordsCount(sections: seq<Section>, bookName: string, bookId: string, chapterName: string, parentSectionName: Option<string>)
    ensures |SectionListRecords(sections, bookName, bookId, chapterName, parentSectionName)| == SectionListArticleCount(sections)
    decreases sections
  {
    if sections != [] {
      SectionRecordsCount(sections[0], bookName, bookId, chapterName, parentSectionName);
      SectionListRecordsCount(sections[1..], bookName, bookId, chapterName, parentSectionName);
    }
  }

  lemma {:induction false} SectionRecordsCount(section: Section, bookName: string, bookId: string, chapterName: string, parentSectionName: Option<string>)
    ensures |SectionRecords(section, bookName, bookId, chapterName, parentSectionName)| == SectionArticleCount(section)
    decreases section
  {
    SectionListRecordsCount(section.subsections, bookName, bookId, chapterName, Some(SectionName(parentSectionName, section.name)));
  }

  lemma {:induction false} ChapterListRecordsCount(chapters: seq<Chapter>, bookName: string, bookId: string)
    ensures |ChapterListRecords(chapters, bookName, bookId)| == ChapterListArticleCount(chapters)
  {
    if chapters != [] {
      SectionListRecordsCount(chapters[0].sections, bookName, bookId, chapters[0].name, None);
      ChapterListRecordsCount(chapters[1..], bookName, bookId);
    }
  }

  lemma {:induction false} BookListRecordsCount(books: seq<Book>, from: nat)
    ensures |BookListRecords(books, from)| == BookListArticleCount(books)
  {
    if books != [] {
      ChapterListRecordsCount(books[0].chapters, books[0].name, BookId(from));
      BookListRecordsCount(books[1..], from + 1);
    }
  }

  /** Flattening loses and duplicates nothing: one record per reachable article. */
  lemma FlattenedCount(law: Law)
    ensures |Flattened(law)| == ArticleCount(law)
  {
    BookListRecordsCount(law.books, 0);
  }

  /** Every record of a list of articles carries the given location. */
  lemma {:induction false} RecordsShape(articles: seq<Article>, bookName: string, bookId: string, chapterName: string, sectionName: Option<string>)
    ensures forall k :: 0 <= k < |articles| ==>
      Records(articles, bookName, bookId, chapterName, sectionName)[k]
        == Record(articles[k], bookName, bookId, chapterName, sectionName)
  {
    if articles != [] {
      RecordsShape(articles[1..], bookName, bookId, chapterName, sectionName);
      var rs := Records(articles, bookName, bookId, chapterName, sectionName);
      forall k | 0 < k < |articles|
        ensures rs[k] == Record(articles[k], bookName, bookId, chapterName, sectionName)
      {
        assert articles[k] == articles[1..][k - 1];
      }
    }
  }

  /** The records reached through sections keep the book and chapter, always name
      a section, and under a non-empty parent name carry it as "parent - …". */
  lemma {:induction false} SectionListRecordsShape(sections: seq<Section>, bookName: string, bookId: string, chapterName: string, parentSectionName: Option<string>)
    ensures forall rec :: rec in SectionListRecords(sections, bookName, bookId, chapterName, parentSectionName) ==>
      rec.bookName == bookName && rec.bookId == bookId && rec.chapterName == chapterName && rec.sectionName.Some?
      && (Truthy(parentSectionName) ==> parentSectionName.value + " - " <= rec.sectionName.value)
    decreases sections
  {
    if sections != [] {
      SectionRecordsShape(sections[0], bookName, bookId, chapterName, parentSectionName);
      SectionListRecordsShape(sections[1..], bookName, bookId, chapterName, parentSectionName);
    }
  }

  lemma {:induction false} SectionRecordsShape(section: Section, bookName: string, bookId: string, chapterName: string, parentSectionName: Option<string>)
    ensures forall rec :: rec in SectionRecords(section, bookName, bookId, chapterName, parentSectionName) ==>
      rec.bookName == bookName && rec.bookId == bookId && rec.chapterName == chapterName && rec.sectionName.Some?
      && (Truthy(parentSectionName) ==> parentSectionName.value + " - " <= rec.sectionName.value)
    decreases section
  {
    var name := SectionName(parentSectionName, section.name);
    RecordsShape(section.articles, bookName, bookId, chapterName, Some(name));
    SectionListRecordsShape(section.subsections, bookName, bookId, chapterName, Some(name));
    if Truthy(parentSectionName) {
      var prefix := parentSectionName.value + " - ";
      assert name == prefix + section.name;
      assert Truthy(Some(name));
      forall rec | rec in SectionListRecords(section.subsections, bookName, bookId, chapterName, Some(name))
        ensures prefix <= rec.sectionName.value
      {
        assert name + " - " <= rec.sectionName.value;
        assert rec.sectionName.value[..|prefix|] == prefix;
      }
    }
  }

  /** `processSection` emits a section's own articles first, under the section's
      displayed name, and only then the articles of its subsections, whose names
      extend that name when it is non-empty. */
  lemma SectionArticlesFirst(section: Section, bookName: string, bookId: string, chapterName: string, parentSectionName: Option<string>)
    ensures var rs := SectionRecords(section, bookName, bookId, chapterName, parentSectionName);
      var name := SectionName(parentSectionName, section.name);
      |section.articles| <= |rs|
      && (forall k :: 0 <= k < |section.articles| ==> rs[k] == Record(section.articles[k], bookName, bookId, chapterName, Some(name)))
      && (forall k :: |section.articles| <= k < |rs| ==> rs[k].sectionName.Some? && (name != "" ==> name + " - " <= rs[k].sectionName.value))
  {
    var name := SectionName(parentSectionName, section.name);
    RecordsShape(section.articles, bookName, bookId, chapterName, Some(name));
    var subs := SectionListRecords(section.subsections, bookName, bookId, chapterName, Some(name));
    SectionListRecordsShape(section.subsections, bookName, bookId, chapterName, Some(name));
    var rs := SectionRecords(section, bookName, bookId, chapterName, parentSectionName);
    forall k | |section.articles| <= k < |rs|
      ensures rs[k].sectionName.Some? && (name != "" ==> name + " - " <= rs[k].sectionName.value)
    {
      assert rs[k] == subs[k - |section.articles|];
    }
  }

  /** `flattenArticles` emits a chapter's direct articles first, without a section
      name, and only then the articles reached through its sections, each with one. */
  lemma DirectArticlesFirst(chapter: Chapter, bookName: string, bookId: string)
    ensures var rs := ChapterRecords(chapter, bookName, bookId);
      |chapter.articles| <= |rs|
      && (forall k :: 0 <= k < |chapter.articles| ==> rs[k] == Record(chapter.articles[k], bookName, bookId, chapter.name, None))
      && (forall k :: |chapter.articles| <= k < |rs| ==> rs[k].sectionName.Some?)
  {
    RecordsShape(chapter.articles, bookName, bookId, chapter.name, None);
    var subs := SectionListRecords(chapter.sections, bookName, bookId, chapter.name, None);
    SectionListRecordsShape(chapter.sections, bookName, bookId, chapter.name, None);
    var rs := ChapterRecords(chapter, bookName, bookId);
    forall k | |chapter.articles| <= k < |rs|
      ensures rs[k].sectionName.Some?
    {
      assert rs[k] == subs[k - |chapter.articles|];
    }
  }

  /** The records of a book's chapters carry the book's name and id and the name
      of one of those chapters. */
  lemma {:induction false} ChapterListRecordsShape(chapters: seq<Chapter>, bookName: string, bookId: string)
    ensures forall rec :: rec in ChapterListRecords(chapters, bookName, bookId) ==>
      rec.bookName == bookName && rec.bookId == bookId
      && exists j :: 0 <= j < |chapters| && rec.chapterName == chapters[j].name
  {
    if chapters != [] {
      var chapter := chapters[0];
      RecordsShape(chapter.articles, bookName, bookId, chapter.name, None);
      SectionListRecordsShape(chapter.sections, bookName, bookId, chapter.name, None);
      ChapterListRecordsShape(chapters[1..], bookName, bookId);
      forall rec | rec in ChapterListRecords(chapters, bookName, bookId)
        ensures exists j :: 0 <= j < |chapters| && rec.chapterName == chapters[j].name
      {
        if rec in ChapterListRecords(chapters[1..], bookName, bookId) {
          var j :| 0 <= j < |chapters[1..]| && rec.chapterName == chapters[1..][j].name;
          assert chapters[j + 1] == chapters[1..][j];
        } else {
          assert rec.chapterName == chapters[0].name;
        }
      }
    }
  }

  lemma {:induction false} BookListRecordsShape(books: seq<Book>, from: nat)
    ensures forall rec :: rec in BookListRecords(books, from) ==>
      exists i :: 0 <= i < |books| && rec.bookId == BookId(from + i) && rec.bookName == books[i].name
  {
    if books != [] {
      ChapterListRecordsShape(books[0].chapters, books[0].name, BookId(from));
      BookListRecordsShape(books[1..], from + 1);
      forall rec | rec in BookListRecords(books, from)
        ensures exists i :: 0 <= i < |books| && rec.bookId == BookId(from + i) && rec.bookName == books[i].name
      {
        if rec in BookListRecords(books[1..], from + 1) {
          var i :| 0 <= i < |books[1..]| && rec.bookId == BookId(from + 1 + i) && rec.bookName == books[1..][i].name;
          assert books[i + 1] == books[1..][i];
        } else {
          assert rec.bookId == BookId(from + 0) && rec.bookName == books[0].name;
        }
      }
    }
  }

  /** Every flattened record names the book it came from by position: "book_<i>"
      with the name of the i-th book. */
  lemma FlattenedBookIds(law: Law)
    ensures forall rec :: rec in Flattened(law) ==>
      exists i :: 0 <= i < |law.books| && rec.bookId == BookId(i) && rec.bookName == law.books[i].name
  {
    BookListRecordsShape(law.books, 0);
  }

  // ---------------------------------------------------------------- navigation items

  /** A sidebar entry; `children` is absent on article entries and `isExpanded`
      is set on book entries only. `text` is the entry's `label` (a reserved word
      in Dafny). */
  datatype NavItem = NavItem(id: string, text: string, href: string, children: NavChildren, isExpanded: Option<bool>)

  /** An entry's `children`: absent, or a list of entries. */
  datatype NavChildren = NoChildren | Children(items: seq<NavItem>)

  /** The entry of an article: its page under the book. */
  function ArticleItem(article: Article, bookId: string): NavItem {
    NavItem("article_" + article.number, "المادة " + article.number, "/" + bookId + "/" + article.number, NoChildren, None)
  }

  function ArticleItems(articles: seq<Article>, bookId: string): (r: seq<NavItem>)
    ensures |r| == |articles|
  {
    if articles == [] then [] else [ArticleItem(articles[0], bookId)] + ArticleItems(articles[1..], bookId)
  }

  /** The entries of a list of sections numbered from `from`: the k-th gets the id
      `parentId + infix + k` and, as children, its own subsections and articles. */
  function SectionItems(sections: seq<Section>, bookId: string, parentId: string, infix: string, from: nat): (r: seq<NavItem>)
    ensures |r| == |sections|
    decreases sections
  {
    if sections == [] then []
    else
      var sectionId := parentId + infix + NatToString(from);
      [NavItem(sectionId, sections[0].name + ": " + sections[0].title, "/" + bookId + "/" + sectionId,
        Children(SectionChildren(sections[0], bookId, sectionId)), None)]
      + SectionItems(sections[1..], bookId, parentId, infix, from + 1)
  }

  /** What `buildSectionChildren` returns: subsections first, then articles. */
  function SectionChildren(section: Section, bookId: string, sectionId: string): seq<NavItem>
    decreases section
  {
    SectionItems(section.subsections, bookId, sectionId, "_subsection_", 0) + ArticleItems(section.articles, bookId)
  }

  /** What `buildChapterChildren` returns: sections first, then direct articles. */
  function ChapterChildren(chapter: Chapter, bookId: string, chapterId: string): seq<NavItem> {
    SectionItems(chapter.sections, bookId, chapterId, "_section_", 0) + ArticleItems(chapter.articles, bookId)
  }

  function ChapterItem(chapter: Chapter, bookId: string, chapterIndex: nat): NavItem {
    var chapterId := bookId + "_chapter_" + NatToString(chapterIndex);
    NavItem(chapterId, chapter.name + ": " + chapter.title, "/" + bookId + "/" + chapterId,
      Children(ChapterChildren(chapter, bookId, chapterId)), None)
  }

  function BookItem(book: Book, bookIndex: nat): NavItem {
    var bookId := BookId(bookIndex);
    NavItem(bookId, book.name + ": " + book.title, "/" + bookId,
      Children(seq(|book.chapters|, j requires 0 <= j < |book.chapters| => ChapterItem(book.chapters[j], bookId, j))), Some(false))
  }

  /** `buildNavItems`: one collapsed entry per book. */
  function BuildNavItems(law: Law): (r: seq<NavItem>)
    ensures |r| == |law.books|
  {
    seq(|law.books|, i requires 0 <= i < |law.books| => BookItem(law.books[i], i))
  }

  /** The shape of the sidebar: book i is "book_<i>", collapsed, labelled
      "name: title", with one entry "book_<i>_chapter_<j>" per chapter. */
  lemma NavItemsLayout(law: Law, i: nat, j: nat)
    requires i < |law.books| && j < |law.books[i].chapters|
    ensures var item := BuildNavItems(law)[i];
      var book := law.books[i];
      item.id == BookId(i) && item.href == "/" + BookId(i) && item.text == book.name + ": " + book.title
      && item.isExpanded == Some(false)
      && item.children.Children? && |item.children.items| == |book.chapters|
      && item.children.items[j].id == BookId(i) + "_chapter_" + NatToString(j)
      && item.children.items[j].href == "/" + BookId(i) + "/" + item.children.items[j].id
      && item.children.items[j].text == book.chapters[j].name + ": " + book.chapters[j].title
  {
  }

  /** The entries of a section list: the k-th is that section, numbered `from + k`. */
  lemma {:induction false} SectionItemsLayout(sections: seq<Section>, bookId: string, parentId: string, infix: string, from: nat, k: nat)
    requires k < |sections|
    ensures var item := SectionItems(sections, bookId, parentId, infix, from)[k];
      var sectionId := parentId + infix + NatToString(from + k);
      item == NavItem(sectionId, sections[k].name + ": " + sections[k].title, "/" + bookId + "/" + sectionId,
        Children(SectionChildren(sections[k], bookId, sectionId)), None)
  {
    if k > 0 {
      SectionItemsLayout(sections[1..], bookId, parentId, infix, from + 1, k - 1);
    }
  }

  lemma {:induction false} ArticleItemsLayout(articles: seq<Article>, bookId: string, k: nat)
    requires k < |articles|
    ensures ArticleItems(articles, bookId)[k] == ArticleItem(articles[k], bookId)
  {
    if k > 0 {
      ArticleItemsLayout(articles[1..], bookId, k - 1);
    }
  }

  /** A chapter's entries list its sections first, as "<chapterId>_section_<k>",
      then its direct articles, as "article_<n>" / "المادة <n>" / "/<bookId>/<n>". */
  lemma ChapterChildrenLayout(chapter: Chapter, bookId: string, chapterId: string, k: nat)
    requires k < |chapter.sections| + |chapter.articles|
    ensures var children := ChapterChildren(chapter, bookId, chapterId);
      |children| == |chapter.sections| + |chapter.articles|
      && (k < |chapter.sections| ==>
        children[k].id == chapterId + "_section_" + NatToString(k) && children[k].children.Children?
        && children[k].text == chapter.sections[k].name + ": " + chapter.sections[k].title)
      && (k >= |chapter.sections| ==>
        var n := chapter.articles[k - |chapter.sections|].number;
        children[k] == NavItem("article_" + n, "المادة " + n, "/" + bookId + "/" + n, NoChildren, None))
  {
    var items := SectionItems(chapter.sections, bookId, chapterId, "_section_", 0);
    var entries := ArticleItems(chapter.articles, bookId);
    if k < |chapter.sections| {
      assert (items + entries)[k] == items[k];
      SectionItemsLayout(chapter.sections, bookId, chapterId, "_section_", 0, k);
    } else {
      assert (items + entries)[k] == entries[k - |items|];
      ArticleItemsLayout(chapter.articles, bookId, k - |chapter.sections|);
    }
  }

  /** A section's entries list its subsections first, as
      "<sectionId>_subsection_<k>", then its articles. */
  lemma SectionChildrenLayout(section: Section, bookId: string, sectionId: string, k: nat)
    requires k < |section.subsections| + |section.articles|
    ensures var children := SectionChildren(section, bookId, sectionId);
      |children| == |section.subsections| + |section.articles|
      && (k < |section.subsections| ==>
        children[k].id == sectionId + "_subsection_" + NatToString(k) && children[k].children.Children?
        && children[k].text == section.subsections[k].name + ": " + section.subsections[k].title)
      && (k >= |section.subsections| ==>
        var n := section.articles[k - |section.subsections|].number;
        children[k] == NavItem("article_" + n, "المادة " + n, "/" + bookId + "/" + n, NoChildren, None))
  {
    var items := SectionItems(section.subsections, bookId, sectionId, "_subsection_", 0);
    var entries := ArticleItems(section.articles, bookId);
    assert SectionChildren(section, bookId, sectionId) == items + entries;
    if k < |section.subsections| {
      assert (items + entries)[k] == items[k];
      SectionItemsLayout(section.subsections, bookId, sectionId, "_subsection_", 0, k);
    } else {
      assert (items + entries)[k] == entries[k - |items|];
      ArticleItemsLayout(section.articles, bookId, k - |section.subsections|);
    }
  }

  /** The links of the article entries of a tree of items, in pre-order. */
  function Leaves(items: seq<NavItem>): seq<string>
    decreases items
  {
    if items == [] then [] else ItemLeaves(items[0]) + Leaves(items[1..])
  }

  function ItemLeaves(item: NavItem): seq<string>
    decreases item
  {
    match item.children
    case NoChildren => [item.href]
    case Children(children) => Leaves(children)
  }

  /** The page link of each flattened record. */
  function RecordLinks(records: seq<FlatArticle>): (r: seq<string>)
    ensures |r| == |records|
  {
    if records == [] then [] else ["/" + records[0].bookId + "/" + records[0].articleNumber] + RecordLinks(records[1..])
  }

  lemma {:induction false} LeavesAppend(a: seq<NavItem>, b: seq<NavItem>)
    ensures Leaves(a + b) == Leaves(a) + Leaves(b)
  {
    if a != [] {
      assert (a + b)[1..] == a[1..] + b;
      LeavesAppend(a[1..], b);
    } else {
      assert a + b == b;
    }
  }

  lemma {:induction false} RecordLinksAppend(a: seq<FlatArticle>, b: seq<FlatArticle>)
    ensures RecordLinks(a + b) == RecordLinks(a) + RecordLinks(b)
  {
    if a != [] {
      assert (a + b)[1..] == a[1..] + b;
      RecordLinksAppend(a[1..], b);
    } else {
      assert a + b == b;
    }
  }

  lemma {:induction false} ArticleLinks(articles: seq<Article>, bookName: string, bookId: string, chapterName: string, sectionName: Option<string>)
    ensures Leaves(ArticleItems(articles, bookId)) == RecordLinks(Records(articles, bookName, bookId, chapterName, sectionName))
  {
    if articles != [] {
      ArticleLinks(articles[1..], bookName, bookId, chapterName, sectionName);
    }
  }

  lemma {:induction false} SectionItemsLinks(sections: seq<Section>, bookId: string, parentId: string, infix: string, from: nat,
                                             bookName: string, chapterName: string, parentSectionName: Option<string>)
    ensures multiset(Leaves(SectionItems(sections, bookId, parentId, infix, from)))
      == multiset(RecordLinks(SectionListRecords(sections, bookName, bookId, chapterName, parentSectionName)))
    decreases sections
  {
    if sections != [] {
      var sectionId := parentId + infix + NatToString(from);
      var items := SectionItems(sections, bookId, parentId, infix, from);
      var rest := SectionItems(sections[1..], bookId, parentId, infix, from + 1);
      assert items == [items[0]] + rest;
      LeavesAppend([items[0]], rest);
      assert Leaves([items[0]]) == Leaves(SectionChildren(sections[0], bookId, sectionId)) by {
        assert [items[0]][1..] == [];
        assert ItemLeaves(items[0]) == Leaves(SectionChildren(sections[0], bookId, sectionId));
      }
      SectionChildrenLinks(sections[0], bookId, sectionId, bookName, chapterName, parentSectionName);
      SectionItemsLinks(sections[1..], bookId, parentId, infix, from + 1, bookName, chapterName, parentSectionName);
      RecordLinksAppend(SectionRecords(sections[0], bookName, bookId, chapterName, parentSectionName),
        SectionListRecords(sections[1..], bookName, bookId, chapterName, parentSectionName));
    }
  }

  lemma {:induction false} SectionChildrenLinks(section: Section, bookId: string, sectionId: string,
                                                bookName: string, chapterName: string, parentSectionName: Option<string>)
    ensures multiset(Leaves(SectionChildren(section, bookId, sectionId)))
      == multiset(RecordLinks(SectionRecords(section, bookName, bookId, chapterName, parentSectionName)))
    decreases section
  {
    var name := SectionName(parentSectionName, section.name);
    LeavesAppend(SectionItems(section.subsections, bookId, sectionId, "_subsection_", 0), ArticleItems(section.articles, bookId));
    SectionItemsLinks(section.subsections, bookId, sectionId, "_subsection_", 0, bookName, chapterName, Some(name));
    ArticleLinks(section.articles, bookName, bookId, chapterName, Some(name));
    RecordLinksAppend(Records(section.articles, bookName, bookId, chapterName, Some(name)),
      SectionListRecords(section.subsections, bookName, bookId, chapterName, Some(name)));
  }

  /** The sidebar and the flattened list order a chapter differently (sections
      first in the one, direct articles first in the other) but link exactly the
      same article pages, each as often. */
  lemma ChapterNavMatchesFlattened(chapter: Chapter, bookName: string, bookId: string, chapterId: string)
    ensures multiset(Leaves(ChapterChildren(chapter, bookId, chapterId)))
      == multiset(RecordLinks(ChapterRecords(chapter, bookName, bookId)))
  {
    LeavesAppend(SectionItems(chapter.sections, bookId, chapterId, "_section_", 0), ArticleItems(chapter.articles, bookId));
    SectionItemsLinks(chapter.sections, bookId, chapterId, "_section_", 0, bookName, chapter.name, None);
    ArticleLinks(chapter.articles, bookName, bookId, chapter.name, None);
    RecordLinksAppend(Records(chapter.articles, bookName, bookId, chapter.name, None),
      SectionListRecords(chapter.sections, bookName, bookId, chapter.name, None));
  }

  /** The `forEach` that pushes one entry per article. */
  method PushArticleItems(children: seq<NavItem>, articles: seq<Article>, bookId: string) returns (pushed: seq<NavItem>)
    ensures pushed == children + ArticleItems(articles, bookId)
  {
    pushed := children;
    var k := 0;
    while k < |articles|
      invariant k <= |articles|
      invariant children + ArticleItems(articles, bookId) == pushed + ArticleItems(articles[k..], bookId)
    {
      var article := articles[k];
      assert articles[k..][1..] == articles[k + 1..];
      pushed := pushed + [NavItem("article_" + article.number, "المادة " + article.number, "/" + bookId + "/" + article.number, NoChildren, None)];
      k := k + 1;
    }
    assert articles[k..] == [];
  }

  /** The `forEach` that pushes one entry per section or subsection, each with
      the children `buildSectionChildren` builds for it. */
  method PushSectionItems(children: seq<NavItem>, sections: seq<Section>, bookId: string, parentId: string, infix: string)
    returns (pushed: seq<NavItem>)
    ensures pushed == children + SectionItems(sections, bookId, parentId, infix, 0)
    decreases sections
  {
    pushed := children;
    var k := 0;
    while k < |sections|
      invariant k <= |sections|
      invariant children + SectionItems(sections, bookId, parentId, infix, 0)
        == pushed + SectionItems(sections[k..], bookId, parentId, infix, k)
    {
      var section := sections[k];
      assert sections[k..][1..] == sections[k + 1..];
      var sectionId := parentId + infix + NatToString(k);
      var sectionChildren := BuildSectionChildren(section, bookId, sectionId);
      pushed := pushed + [NavItem(sectionId, section.name + ": " + section.title, "/" + bookId + "/" + sectionId, Children(sectionChildren), None)];
      k := k + 1;
    }
    assert sections[k..] == [];
  }

  /** `buildSectionChildren`. */
  method BuildSectionChildren(section: Section, bookId: string, sectionId: string) returns (children: seq<NavItem>)
    ensures children == SectionChildren(section, bookId, sectionId)
    decreases section
  {
    children := PushSectionItems([], section.subsections, bookId, sectionId, "_subsection_");
    children := PushArticleItems(children, section.articles, bookId);
  }

  /** `buildChapterChildren`. */
  method BuildChapterChildren(chapter: Chapter, bookId: string, chapterId: string) returns (children: seq<NavItem>)
    ensures children == ChapterChildren(chapter, bookId, chapterId)
  {
    children := PushSectionItems([], chapter.sections, bookId, chapterId, "_section_");
    children := PushArticleItems(children, chapter.articles, bookId);
  }

  // ---------------------------------------------------------------- lookup by number

  /** What `findArticleInSections` returns: the article and the section holding it. */
  datatype SectionMatch = SectionMatch(article: Article, section: Section)

  /** What `findArticle` returns; `section` is absent for an article placed
      directly in its chapter. */
  datatype ArticleMatch = ArticleMatch(article: Article, book: Book, chapter: Chapter, section: Option<Section>)

  /** The predicate `a => a.number === articleNumber` given to `find`. */
  function HasNumber(articleNumber: string): Article -> bool {
    (a: Article) => a.number == articleNumber
  }

  /** The predicate on flattened records with the same meaning. */
  function RecordHasNumber(articleNumber: string): FlatArticle -> bool {
    (rec: FlatArticle) => rec.articleNumber == articleNumber
  }

  /** The search of a list of sections: each section's own articles, then its
      subsections, then the next section. */
  function FindInSections(sections: seq<Section>, articleNumber: string): (r: Option<SectionMatch>)
    ensures r.Some? ==> r.value.article.number == articleNumber
    decreases sections
  {
    if sections == [] then None
    else
      match FindInSection(sections[0], articleNumber)
      case Some(m) => Some(m)
      case None => FindInSections(sections[1..], articleNumber)
  }

  function FindInSection(section: Section, articleNumber: string): (r: Option<SectionMatch>)
    ensures r.Some? ==> r.value.article.number == articleNumber
    decreases section
  {
    match FirstWhere(section.articles, HasNumber(articleNumber))
    case Some(article) => Some(SectionMatch(article, section))
    case None => FindInSections(section.subsections, articleNumber)
  }

  /** The search of a book's chapters: each chapter's direct articles, then its sections. */
  function FindInChapters(book: Book, chapters: seq<Chapter>, articleNumber: string): (r: Option<ArticleMatch>)
    ensures r.Some? ==> r.value.article.number == articleNumber && r.value.book == book
  {
    if chapters == [] then None
    else
      var chapter := chapters[0];
      match FirstWhere(chapter.articles, HasNumber(articleNumber))
      case Some(article) => Some(ArticleMatch(article, book, chapter, None))
      case None =>
        match FindInSections(chapter.sections, articleNumber)
        case Some(m) => Some(ArticleMatch(m.article, book, chapter, Some(m.section)))
        case None => FindInChapters(book, chapters[1..], articleNumber)
  }

  function FindInBooks(books: seq<Book>, articleNumber: string): (r: Option<ArticleMatch>)
    ensures r.Some? ==> r.value.article.number == articleNumber && r.value.book in books
  {
    if books == [] then None
    else
      match FindInChapters(books[0], books[0].chapters, articleNumber)
      case Some(m) => Some(m)
      case None => FindInBooks(books[1..], articleNumber)
  }

  /** `findArticleInSections`. */
  method FindArticleInSections(sections: seq<Section>, articleNumber: string) returns (r: Option<SectionMatch>)
    ensures r == FindInSections(sections, articleNumber)
    decreases sections
  {
    var i := 0;
    while i < |sections|
      invariant i <= |sections|
      invariant FindInSections(sections, articleNumber) == FindInSections(sections[i..], articleNumber)
    {
      var section := sections[i];
      assert sections[i..][1..] == sections[i + 1..];
      var article := FirstWhere(section.articles, HasNumber(articleNumber));
      if article.Some? {
        return Some(SectionMatch(article.value, section));
      }
      var result := FindArticleInSections(section.subsections, articleNumber);
      if result.Some? {
        return result;
      }
      i := i + 1;
    }
    assert sections[i..] == [];
    return None;
  }

  /** `findArticle`: the first article carrying the number, book by book and
      chapter by chapter, with where it was found. */
  method FindArticle(law: Law, articleNumber: string) returns (r: Option<ArticleMatch>)
    ensures r == FindInBooks(law.books, articleNumber)
  {
    var i := 0;
    while i < |law.books|
      invariant i <= |law.books|
      invariant FindInBooks(law.books, articleNumber) == FindInBooks(law.books[i..], articleNumber)
    {
      var book := law.books[i];
      assert law.books[i..][1..] == law.books[i + 1..];
      var j := 0;
      while j < |book.chapters|
        invariant j <= |book.chapters|
        invariant FindInChapters(book, book.chapters, articleNumber) == FindInChapters(book, book.chapters[j..], articleNumber)
      {
        var chapter := book.chapters[j];
        assert book.chapters[j..][1..] == book.chapters[j + 1..];
        var article := FirstWhere(chapter.articles, HasNumber(articleNumber));
        if article.Some? {
          return Some(ArticleMatch(article.value, book, chapter, None));
        }
        var result := FindArticleInSections(chapter.sections, articleNumber);
        if result.Some? {
          return Some(ArticleMatch(result.value.article, book, chapter, Some(result.value.section)));
        }
        j := j + 1;
      }
      assert book.chapters[j..] == [];
      i := i + 1;
    }
    assert law.books[i..] == [];
    return None;
  }

  /** The first record of a list of articles with the number is the record of the
      first such article. */
  lemma {:induction false} RecordsFind(articles: seq<Article>, articleNumber: string, bookName: string, bookId: string, chapterName: string,
                                       sectionName: Option<string>)
    ensures FirstWhere(Records(articles, bookName, bookId, chapterName, sectionName), RecordHasNumber(articleNumber))
      == match FirstWhere(articles, HasNumber(articleNumber))
         case None => None
         case Some(a) => Some(Record(a, bookName, bookId, chapterName, sectionName))
  {
    if articles != [] {
      RecordsFind(articles[1..], articleNumber, bookName, bookId, chapterName, sectionName);
    }
  }

  /** A section match and a flattened record agree: both absent, or the record is
      the article's, under a section name ending in the matched section's name. */
  predicate SectionFoundAs(m: Option<SectionMatch>, f: Option<FlatArticle>, bookName: string, bookId: string, chapterName: string) {
    match m
    case None => f.None?
    case Some(x) =>
      f.Some? && f.value.sectionName.Some? && EndsWith(f.value.sectionName.value, x.section.name)
      && f.value == Record(x.article, bookName, bookId, chapterName, f.value.sectionName)
  }

  lemma {:induction false} FindInSectionsIsFirstRecord(sections: seq<Section>, articleNumber: string, bookName: string, bookId: string,
                                                       chapterName: string, parentSectionName: Option<string>)
    ensures SectionFoundAs(FindInSections(sections, articleNumber),
      FirstWhere(SectionListRecords(sections, bookName, bookId, chapterName, parentSectionName), RecordHasNumber(articleNumber)),
      bookName, bookId, chapterName)
    decreases sections
  {
    if sections != [] {
      FindInSectionIsFirstRecord(sections[0], articleNumber, bookName, bookId, chapterName, parentSectionName);
      FindInSectionsIsFirstRecord(sections[1..], articleNumber, bookName, bookId, chapterName, parentSectionName);
      FirstWhereAppend(SectionRecords(sections[0], bookName, bookId, chapterName, parentSectionName),
        SectionListRecords(sections[1..], bookName, bookId, chapterName, parentSectionName), RecordHasNumber(articleNumber));
    }
  }

  lemma {:induction false} FindInSectionIsFirstRecord(section: Section, articleNumber: string, bookName: string, bookId: string,
                                                      chapterName: string, parentSectionName: Option<string>)
    ensures SectionFoundAs(FindInSection(section, articleNumber),
      FirstWhere(SectionRecords(section, bookName, bookId, chapterName, parentSectionName), RecordHasNumber(articleNumber)),
      bookName, bookId, chapterName)
    decreases section
  {
    var name := SectionName(parentSectionName, section.name);
    RecordsFind(section.articles, articleNumber, bookName, bookId, chapterName, Some(name));
    FindInSectionsIsFirstRecord(section.subsections, articleNumber, bookName, bookId, chapterName, Some(name));
    FirstWhereAppend(Records(section.articles, bookName, bookId, chapterName, Some(name)),
      SectionListRecords(section.subsections, bookName, bookId, chapterName, Some(name)), RecordHasNumber(articleNumber));
  }

  /** A lookup result and a flattened record agree: both absent, or the record is
      the found article's, in the found book and chapter, with a section name
      exactly when a section was found, ending in that section's name. */
  predicate FoundAs(m: Option<ArticleMatch>, f: Option<FlatArticle>) {
    match m
    case None => f.None?
    case Some(x) =>
      f.Some? && f.value == Record(x.article, x.book.name, f.value.bookId, x.chapter.name, f.value.sectionName)
      && (x.section.None? <==> f.value.sectionName.None?)
      && (x.section.Some? ==> EndsWith(f.value.sectionName.value, x.section.value.name))
  }

  lemma {:induction false} FindInChaptersIsFirstRecord(book: Book, chapters: seq<Chapter>, articleNumber: string, bookId: string)
    ensures FoundAs(FindInChapters(book, chapters, articleNumber),
      FirstWhere(ChapterListRecords(chapters, book.name, bookId), RecordHasNumber(articleNumber)))
  {
    if chapters != [] {
      var chapter := chapters[0];
      var p := RecordHasNumber(articleNumber);
      RecordsFind(chapter.articles, articleNumber, book.name, bookId, chapter.name, None);
      FindInSectionsIsFirstRecord(chapter.sections, articleNumber, book.name, bookId, chapter.name, None);
      FindInChaptersIsFirstRecord(book, chapters[1..], articleNumber, bookId);
      FirstWhereAppend(Records(chapter.articles, book.name, bookId, chapter.name, None),
        SectionListRecords(chapter.sections, book.name, bookId, chapter.name, None), p);
      FirstWhereAppend(ChapterRecords(chapter, book.name, bookId), ChapterListRecords(chapters[1..], book.name, bookId), p);
    }
  }

  lemma {:induction false} FindInBooksIsFirstRecord(books: seq<Book>, articleNumber: string, from: nat)
    ensures FoundAs(FindInBooks(books, articleNumber), FirstWhere(BookListRecords(books, from), RecordHasNumber(articleNumber)))
  {
    if books != [] {
      FindInChaptersIsFirstRecord(books[0], books[0].chapters, articleNumber, BookId(from));
      FindInBooksIsFirstRecord(books[1..], articleNumber, from + 1);
      FirstWhereAppend(ChapterListRecords(books[0].chapters, books[0].name, BookId(from)),
        BookListRecords(books[1..], from + 1), RecordHasNumber(articleNumber));
    }
  }

  /** `findArticle` finds nothing exactly when no flattened record carries the
      number; otherwise what it finds is the first such record in flattening order. */
  lemma FindArticleIsFirstInFlattenOrder(law: Law, articleNumber: string)
    ensures FindInBooks(law.books, articleNumber).None?
      <==> forall k :: 0 <= k < |Flattened(law)| ==> Flattened(law)[k].articleNumber != articleNumber
    ensures FoundAs(FindInBooks(law.books, articleNumber), FirstWhere(Flattened(law), RecordHasNumber(articleNumber)))
  {
    FindInBooksIsFirstRecord(law.books, articleNumber, 0);
    FirstWhereSpec(Flattened(law), RecordHasNumber(articleNumber));
  }

  // ---------------------------------------------------------------- breadcrumbs

  /** One step of the breadcrumb trail; `text` is the step's `label`. */
  datatype BreadcrumbItem = BreadcrumbItem(text: string, href: string)

  /** `buildBreadcrumbs`: home, book and chapter always; the section when one is
      given; the article when a non-empty number is given. Each of book, chapter
      and section links under the previous step, while the article links directly
      under the book. */
  method BuildBreadcrumbs(book: Book, chapter: Chapter, section: Option<Section>, articleNumber: Option<string>)
    returns (breadcrumbs: seq<BreadcrumbItem>)
    ensures |breadcrumbs| == 3 + (if section.Some? then 1 else 0) + (if Truthy(articleNumber) then 1 else 0)
    ensures breadcrumbs[0] == BreadcrumbItem("الرئيسية", "/")
    ensures breadcrumbs[1] == BreadcrumbItem(book.name, "/" + book.name)
    ensures breadcrumbs[2] == BreadcrumbItem(chapter.name, breadcrumbs[1].href + "/" + chapter.name)
    ensures section.Some? ==> breadcrumbs[3] == BreadcrumbItem(section.value.name, breadcrumbs[2].href + "/" + section.value.name)
    ensures Truthy(articleNumber) ==>
      breadcrumbs[|breadcrumbs| - 1] == BreadcrumbItem("المادة " + articleNumber.value, breadcrumbs[1].href + "/" + articleNumber.value)
  {
    breadcrumbs := [
      BreadcrumbItem("الرئيسية", "/"),
      BreadcrumbItem(book.name, "/" + book.name),
      BreadcrumbItem(chapter.name, "/" + book.name + "/" + chapter.name)
    ];
    if section.Some? {
      breadcrumbs := breadcrumbs + [BreadcrumbItem(section.value.name, "/" + book.name + "/" + chapter.name + "/" + section.value.name)];
    }
    if articleNumber.Some? && articleNumber.value != "" {
      breadcrumbs := breadcrumbs + [BreadcrumbItem("المادة " + articleNumber.value, "/" + book.name + "/" + articleNumber.value)];
    }
  }

  // ---------------------------------------------------------------- previous / next

  /** `getAllArticleNumbers`: the numbers of the flattened records, in order. */
  function AllArticleNumbers(law: Law): (r: seq<string>)
    ensures |r| == |Flattened(law)| == ArticleCount(law)
    ensures forall k :: 0 <= k < |r| ==> r[k] == Flattened(law)[k].articleNumber
  {
    FlattenedCount(law);
    var articles := Flattened(law);
    seq(|articles|, k requires 0 <= k < |articles| => articles[k].articleNumber)
  }

  /** The neighbours of an article; an absent side is `undefined`. */
  datatype ArticleNavigation = ArticleNavigation(previous: Option<string>, next: Option<string>)

  /** `getArticleNavigation`: the numbers before and after the first occurrence
      of the current number, in reading order. */
  function GetArticleNavigation(law: Law, currentArticleNumber: string): (r: ArticleNavigation)
    ensures currentArticleNumber !in AllArticleNumbers(law) ==> r == ArticleNavigation(None, None)
  {
    Neighbours(AllArticleNumbers(law), currentArticleNumber)
  }

  /** The numbers before and after the first occurrence of `currentArticleNumber`
      in `allNumbers`. */
  function Neighbours(allNumbers: seq<string>, currentArticleNumber: string): ArticleNavigation {
    match IndexOf(allNumbers, currentArticleNumber)
    case None => ArticleNavigation(None, None)
    case Some(currentIndex) =>
      ArticleNavigation(
        if currentIndex > 0 then Some(allNumbers[currentIndex - 1]) else None,
        if currentIndex < |allNumbers| - 1 then Some(allNumbers[currentIndex + 1]) else None)
  }

  /** A known number's neighbours are those of its first occurrence: the one
      before unless it is first, the one after unless it is last. */
  lemma NavigationNeighbours(law: Law, currentArticleNumber: string, i: nat)
    requires var all := AllArticleNumbers(law);
      i < |all| && all[i] == currentArticleNumber && forall j :: 0 <= j < i ==> all[j] != currentArticleNumber
    ensures var all := AllArticleNumbers(law);
      var r := GetArticleNavigation(law, currentArticleNumber);
      r.previous == (if i == 0 then None else Some(all[i - 1]))
      && r.next == (if i == |all| - 1 then None else Some(all[i + 1]))
  {
    IndexOfFirst(AllArticleNumbers(law), currentArticleNumber, i);
  }

  /** `indexOf` finds the first occurrence. */
  lemma IndexOfFirst(all: seq<string>, x: string, i: nat)
    requires i < |all| && all[i] == x && forall j :: 0 <= j < i ==> all[j] != x
    ensures IndexOf(all, x) == Some(i)
  {
    assert all[i] in all;
    var r := IndexOf(all, x);
    assert !(r.value < i) && !(i < r.value);
  }

  /** The first article has no previous one, and an article that occurs only
      last has no next one. */
  lemma NavigationEnds(law: Law)
    requires |AllArticleNumbers(law)| > 0
    ensures GetArticleNavigation(law, AllArticleNumbers(law)[0]).previous.None?
    ensures var all := AllArticleNumbers(law);
      all[|all| - 1] !in all[..|all| - 1] ==> GetArticleNavigation(law, all[|all| - 1]).next.None?
  {
    var all := AllArticleNumbers(law);
    var last := all[|all| - 1];
    if last !in all[..|all| - 1] {
      var i := IndexOf(all, last).value;
      assert i == |all| - 1 by {
        forall j | 0 <= j < |all| - 1
          ensures all[j] != last
        {
          assert all[j] == all[..|all| - 1][j];
        }
      }
    }
  }

  /** When article numbers do not repeat, stepping forward then back (or back
      then forward) returns to the same article. */
  lemma NavigationStepsUndoEachOther(law: Law, currentArticleNumber: string)
    requires var all := AllArticleNumbers(law); forall i, j :: 0 <= i < j < |all| ==> all[i] != all[j]
    ensures var r := GetArticleNavigation(law, currentArticleNumber);
      (r.next.Some? ==> GetArticleNavigation(law, r.next.value).previous == Some(currentArticleNumber))
      && (r.previous.Some? ==> GetArticleNavigation(law, r.previous.value).next == Some(currentArticleNumber))
  {
    NeighboursUndoEachOther(AllArticleNumbers(law), currentArticleNumber);
  }

  lemma NeighboursUndoEachOther(all: seq<string>, x: string)
    requires forall i, j :: 0 <= i < j < |all| ==> all[i] != all[j]
    ensures var r := Neighbours(all, x);
      (r.next.Some? ==> Neighbours(all, r.next.value).previous == Some(x))
      && (r.previous.Some? ==> Neighbours(all, r.previous.value).next == Some(x))
  {
    if x in all {
      var i := IndexOf(all, x).value;
      DistinctNeighbours(all, i);
      if i + 1 < |all| {
        DistinctNeighbours(all, i + 1);
      }
      if i > 0 {
        DistinctNeighbours(all, i - 1);
      }
    }
  }

  /** Without repeats, the neighbours of the number at position `k` are those
      at `k - 1` and `k + 1`. */
  lemma DistinctNeighbours(all: seq<string>, k: nat)
    requires k < |all| && forall i, j :: 0 <= i < j < |all| ==> all[i] != all[j]
    ensures Neighbours(all, all[k]).previous == (if k == 0 then None else Some(all[k - 1]))
    ensures Neighbours(all, all[k]).next == (if k == |all| - 1 then None else Some(all[k + 1]))
  {
    IndexOfDistinct(all, k);
  }

  /** In a sequence without repeats, each element is found at its own position. */
  lemma IndexOfDistinct(all: seq<string>, k: nat)
    requires k < |all| && forall i, j :: 0 <= i < j < |all| ==> all[i] != all[j]
    ensures IndexOf(all, all[k]) == Some(k)
  {
    IndexOfFirst(all, all[k], k);
  }
}
