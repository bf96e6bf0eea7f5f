/**
 * Display helpers for search results: the legal path line, HTML escaping,
 * regular-expression escaping, and highlighting of the query with `<mark>` tags.
 *
 * Matching is exact: the case-insensitive flag of the highlighting pattern is
 * not modelled.
 */
module SearchUtils {
  import opened Wrappers
  import opened Text
  import opened SeqUtil
  import opened SearchTypes

  // ---------------------------------------------------------------- the legal path

  /** `formatLegalPath`: "name • title" when the result has both, the name alone
      when it has no title, and "" when it has no name. */
  function FormatLegalPath(result: SearchResult): (r: string)
    ensures result.bookName != "" && Truthy(result.bookTitle) ==> r == result.bookName + " • " + result.bookTitle.value
    ensures result.bookName != "" && !Truthy(result.bookTitle) ==> r == result.bookName
    ensures result.bookName == "" ==> r == ""
  {
    var parts :=
      if result.bookName != "" && Truthy(result.bookTitle) then [result.bookName + " • " + result.bookTitle.value]
      else if result.bookName != "" then [result.bookName]
      else [];
    Join(parts, " ")
  }

  // ---------------------------------------------------------------- regular expressions

  /** The characters `escapeRegExp` escapes: `. * + ? ^ $ { } ( ) | [ ] \`. */
  predicate IsRegExpSpecial(c: char) {
    c in ".*+?^${}()|[]\\"
  }

  /** `escapeRegExp`: a backslash before every special character. */
  function EscapeRegExp(s: string): (r: string)
    ensures |s| <= |r| <= 2 * |s|
  {
    if s == [] then ""
    else (if IsRegExpSpecial(s[0]) then ['\\', s[0]] else [s[0]]) + EscapeRegExp(s[1..])
  }

  /** The text a pattern stands for when it is made of literal characters only:
      ordinary characters and special characters escaped with a backslash. `None`
      when the pattern holds an unescaped special character, a backslash before
      an ordinary character, or a trailing backslash. */
  function LiteralText(p: string): Option<string>
    decreases |p|
  {
    if p == [] then Some("")
    else if p[0] == '\\' then
      if |p| < 2 || !IsRegExpSpecial(p[1]) then None
      else match LiteralText(p[2..]) case Some(t) => Some([p[1]] + t) case None => None
    else if IsRegExpSpecial(p[0]) then None
    else match LiteralText(p[1..]) case Some(t) => Some([p[0]] + t) case None => None
  }

  /** An escaped string is a pattern matching exactly that string. */
  lemma {:induction false} EscapedPatternIsLiteral(s: string)
    ensures LiteralText(EscapeRegExp(s)) == Some(s)
  {
    if s != [] {
      EscapedPatternIsLiteral(s[1..]);
      var e := EscapeRegExp(s);
      if IsRegExpSpecial(s[0]) {
        assert e[2..] == EscapeRegExp(s[1..]);
      } else {
        assert e[1..] == EscapeRegExp(s[1..]);
      }
      HeadTail(s);
    }
  }

  // ---------------------------------------------------------------- HTML

  /** The entity `escapeHtml` writes for one character. */
  function EscapeHtmlChar(c: char): (r: string)
    ensures |r| >= 1
  {
    match c
    case '&' => "&amp;"
    case '<' => "&lt;"
    case '>' => "&gt;"
    case '"' => "&quot;"
    case '\'' => "&#39;"
    case _ => [c]
  }

  /** `escapeHtml`: each of `& < > " '` replaced by its entity. */
  function EscapeHtml(s: string): (r: string)
    ensures |r| >= |s|
  {
    if s == [] then "" else EscapeHtmlChar(s[0]) + EscapeHtml(s[1..])
  }

  /** No character that could open markup or close an attribute value. */
  predicate HtmlSafe(s: string) {
    forall i :: 0 <= i < |s| ==> s[i] !in "<>\"'"
  }

  lemma {:induction false} EscapeHtmlAppend(a: string, b: string)
    ensures EscapeHtml(a + b) == EscapeHtml(a) + EscapeHtml(b)
  {
    if a != [] {
      assert (a + b)[1..] == a[1..] + b;
      EscapeHtmlAppend(a[1..], b);
    } else {
      assert a + b == b;
    }
  }

  /** Escaped text carries no raw `<`, `>`, `"` or `'`. */
  lemma {:induction false} EscapeHtmlIsSafe(s: string)
    ensures HtmlSafe(EscapeHtml(s))
  {
    if s != [] {
      EscapeHtmlIsSafe(s[1..]);
      var head := EscapeHtmlChar(s[0]);
      assert HtmlSafe(head);
      var e := EscapeHtml(s);
      forall i | 0 <= i < |e| ensures e[i] !in "<>\"'" {
        if i < |head| { assert e[i] == head[i]; } else { assert e[i] == EscapeHtml(s[1..])[i - |head|]; }
      }
    }
  }

  // ---------------------------------------------------------------- highlighting

  /** What the opening mark tag holds between its angle brackets (the class list
      is written one class at a time). */
  const MARK_ATTRS: string :=
    "mark class=\"" + "bg-yellow-300/50 " + "dark:bg-yellow-500/30 " + "text-inherit " + "rounded-sm px-0.5" + "\""
  const MARK_OPEN: string := "<" + MARK_ATTRS + ">"
  const MARK_CLOSE: string := "</mark>"

  /** An HTML tag: a `<`, then anything but `>`, then a `>`. */
  predicate IsTag(x: string) {
    |x| >= 2 && x[0] == '<' && x[|x| - 1] == '>' && '>' !in x[1..|x| - 1]
  }

  /** `m` wrapped in the tags `open` and `close`. */
  function Wrapped(m: string, open: string, close: string): string {
    open + (m + close)
  }

  /** The global replacement of `q` in `t`: scanning left to right, each
      occurrence is wrapped in `open` and `close` and the scan resumes after it.
      The tags are parameters, so what is proved below holds for any pair of tags. */
  function MarkMatches(t: string, q: string, open: string, close: string): string
    requires |q| >= 1
    decreases |t|
  {
    if |q| <= |t| && t[..|q|] == q then Wrapped(t[..|q|], open, close) + MarkMatches(t[|q|..], q, open, close)
    else if t == [] then ""
    else [t[0]] + MarkMatches(t[1..], q, open, close)
  }

  /** `highlightQuery`: the escaped text, with the escaped query marked in it when
      the query has two characters or more. */
  function HighlightQuery(text: string, query: string): (r: string)
    ensures |query| < 2 ==> r == EscapeHtml(text)
  {
    if |query| < 2 then EscapeHtml(text)
    else MarkMatches(EscapeHtml(text), EscapeHtml(query), MARK_OPEN, MARK_CLOSE)
  }

  /** Angle brackets around anything without `>` make a tag. */
  lemma Bracketed(inside: string)
    requires '>' !in inside
    ensures IsTag("<" + inside + ">")
  {
    var x := "<" + inside + ">";
    assert x[1..|x| - 1] == inside;
  }

  lemma MarkTagsAreTags()
    ensures IsTag(MARK_OPEN) && IsTag(MARK_CLOSE)
  {
    assert '>' !in MARK_ATTRS;
    Bracketed(MARK_ATTRS);
    assert MARK_CLOSE == "<" + "/mark" + ">";
    Bracketed("/mark");
  }

  /** The length of the tag `s` starts with, as a browser reads it: from a `<`
      through the next `>` (or to the end when none follows); 0 when `s` does not
      start with `<`. */
  function TagAt(s: string): (r: nat)
    ensures r <= |s|
    ensures s != [] && s[0] == '<' ==> r >= 1
  {
    if s == [] || s[0] != '<' then 0 else 1 + ThroughGt(s[1..])
  }

  /** The length of `s` up to and including its first `>`, or all of `s`. */
  function ThroughGt(s: string): (r: nat)
    ensures r <= |s|
    decreases |s|
  {
    if s == [] then 0 else if s[0] == '>' then 1 else 1 + ThroughGt(s[1..])
  }

  lemma {:induction false} ThroughGtAppend(a: string, b: string)
    requires '>' !in a
    ensures ThroughGt(a + b) == |a| + ThroughGt(b)
    decreases |a|
  {
    if a != [] {
      assert a[0] in a;
      assert (a + b)[1..] == a[1..] + b;
      AbsentFromSlice('>', a, 1, |a|);
      ThroughGtAppend(a[1..], b);
    } else {
      assert a + b == b;
    }
  }

  /** A tag is read whole. */
  lemma TagAtTag(x: string, rest: string)
    requires IsTag(x)
    ensures TagAt(x + rest) == |x|
  {
    var inside := x[1..|x| - 1];
    var s := x + rest;
    assert s[1..] == inside + (">" + rest);
    ThroughGtAppend(inside, ">" + rest);
    assert (">" + rest)[0] == '>';
  }

  /** The output with its tags deleted. */
  function StripMarks(s: string): string
    decreases |s|
  {
    if s == [] then ""
    else if TagAt(s) > 0 then StripMarks(s[TagAt(s)..])
    else [s[0]] + StripMarks(s[1..])
  }

  lemma {:induction false} StripPlain(m: string, rest: string)
    requires '<' !in m
    ensures StripMarks(m + rest) == m + StripMarks(rest)
  {
    if m != [] {
      var s := m + rest;
      assert s[0] == m[0] && s[1..] == m[1..] + rest;
      assert m[0] in m;
      assert TagAt(s) == 0;
      AbsentFromSlice('<', m, 1, |m|);
      StripPlain(m[1..], rest);
      AppendAssoc([m[0]], m[1..], StripMarks(rest));
      HeadTail(m);
    } else {
      assert m + rest == rest;
    }
  }

  lemma StripTags(m: string, rest: string, open: string, close: string)
    requires IsTag(open) && IsTag(close) && '<' !in m
    ensures StripMarks(Wrapped(m, open, close) + rest) == m + StripMarks(rest)
  {
    var s := Wrapped(m, open, close) + rest;
    assert s == open + (m + (close + rest));
    TagAtTag(open, m + (close + rest));
    assert s[|open|..] == m + (close + rest);
    StripPlain(m, close + rest);
    TagAtTag(close, rest);
    assert (close + rest)[|close|..] == rest;
  }

  /** Deleting the tags from a marked text gives the text back. */
  lemma {:induction false} StripMarkMatches(t: string, q: string, open: string, close: string)
    requires IsTag(open) && IsTag(close) && |q| >= 1 && '<' !in t
    ensures StripMarks(MarkMatches(t, q, open, close)) == t
    decreases |t|
  {
    if |q| <= |t| && t[..|q|] == q {
      var marked := MarkMatches(t[|q|..], q, open, close);
      AbsentFromSlice('<', t, |q|, |t|);
      StripMarkMatches(t[|q|..], q, open, close);
      AbsentFromSlice('<', t, 0, |q|);
      StripTags(t[..|q|], marked, open, close);
      SplitAt(t, |q|);
    } else if t != [] {
      var marked := MarkMatches(t[1..], q, open, close);
      AbsentFromSlice('<', t, 1, |t|);
      StripMarkMatches(t[1..], q, open, close);
      assert t[0] in t;
      assert '<' !in [t[0]];
      StripPlain([t[0]], marked);
      HeadTail(t);
    }
  }

  lemma AbsentFromSlice(c: char, t: string, i: nat, j: nat)
    requires i <= j <= |t| && c !in t
    ensures c !in t[i..j]
  {
  }

  lemma NoOpenInSafe(s: string)
    requires HtmlSafe(s)
    ensures '<' !in s
  {
  }

  /** Deleting the tags from the highlighted output gives exactly the escaped
      text, which carries no raw angle bracket: every angle bracket of the output
      belongs to an inserted tag. */
  lemma HighlightIsEscapedTextPlusTags(text: string, query: string)
    ensures StripMarks(HighlightQuery(text, query)) == EscapeHtml(text)
    ensures HtmlSafe(StripMarks(HighlightQuery(text, query)))
  {
    var e := EscapeHtml(text);
    EscapeHtmlIsSafe(text);
    NoOpenInSafe(e);
    if |query| < 2 {
      StripPlain(e, "");
      assert e + "" == e;
    } else {
      MarkTagsAreTags();
      StripMarkMatches(e, EscapeHtml(query), MARK_OPEN, MARK_CLOSE);
    }
  }

  // ---------------------------------------------------------------- what the browser shows

  /** The entity `s` starts with: its length and the character it stands for;
      length 0 when `s` starts with none of the five entities `escapeHtml` writes. */
  function EntityAt(s: string): (r: (nat, char))
    ensures r.0 <= |s|
  {
    if s == [] || s[0] != '&' then (0, ' ')
    else if "&amp;" <= s then (5, '&')
    else if "&lt;" <= s then (4, '<')
    else if "&gt;" <= s then (4, '>')
    else if "&quot;" <= s then (6, '"')
    else if "&#39;" <= s then (5, '\'')
    else (0, ' ')
  }

  /** The text a browser shows for markup made of tags, the five entities and
      plain characters; an `&` that starts no entity shows as itself. */
  function Rendered(s: string): string
    decreases |s|
  {
    if s == [] then ""
    else if TagAt(s) > 0 then Rendered(s[TagAt(s)..])
    else if EntityAt(s).0 > 0 then [EntityAt(s).1] + Rendered(s[EntityAt(s).0..])
    else [s[0]] + Rendered(s[1..])
  }

  lemma RenderedEscapedChar(c: char, rest: string)
    ensures Rendered(EscapeHtmlChar(c) + rest) == [c] + Rendered(rest)
  {
    var e := EscapeHtmlChar(c);
    var s := e + rest;
    assert s[..|e|] == e && s[|e|..] == rest;
    assert s[0] == e[0];
    if c !in "&<>\"'" {
      assert e == [c];
      assert TagAt(s) == 0 && EntityAt(s).0 == 0;
    } else {
      assert TagAt(s) == 0;
      EntityAtEscaped(c, rest);
    }
  }

  lemma EntityAtEscaped(c: char, rest: string)
    requires c in "&<>\"'"
    ensures EntityAt(EscapeHtmlChar(c) + rest) == (|EscapeHtmlChar(c)|, c)
  {
    var e := EscapeHtmlChar(c);
    var s := e + rest;
    assert s[..|e|] == e;
    assert s[0] == '&' && s[1] == e[1];
  }

  lemma RenderedEscapeHead(t: string, rest: string)
    requires t != []
    ensures Rendered(EscapeHtml(t) + rest) == [t[0]] + Rendered(EscapeHtml(t[1..]) + rest)
  {
    var head := EscapeHtmlChar(t[0]);
    var tail := EscapeHtml(t[1..]) + rest;
    assert EscapeHtml(t) == head + EscapeHtml(t[1..]);
    AppendAssoc(head, EscapeHtml(t[1..]), rest);
    RenderedEscapedChar(t[0], tail);
  }

  /** Escaping is undone by the browser: escaped text shows as the original. */
  lemma {:induction false} RenderedEscape(t: string, rest: string)
    ensures Rendered(EscapeHtml(t) + rest) == t + Rendered(rest)
  {
    if t != [] {
      RenderedEscapeHead(t, rest);
      RenderedEscape(t[1..], rest);
      AppendAssoc([t[0]], t[1..], Rendered(rest));
      HeadTail(t);
    } else {
      assert EscapeHtml(t) + rest == rest;
    }
  }

  /** A tag shows nothing. */
  lemma RenderedTag(x: string, rest: string)
    requires IsTag(x)
    ensures Rendered(x + rest) == Rendered(rest)
  {
    TagAtTag(x, rest);
    assert (x + rest)[|x|..] == rest;
  }

  lemma {:induction false} RenderedPlain(m: string, rest: string)
    requires forall i :: 0 <= i < |m| ==> m[i] != '<' && m[i] != '&'
    ensures Rendered(m + rest) == m + Rendered(rest)
  {
    if m != [] {
      var s := m + rest;
      assert s[0] == m[0] && s[1..] == m[1..] + rest;
      assert TagAt(s) == 0 && EntityAt(s).0 == 0;
      RenderedPlain(m[1..], rest);
      AppendAssoc([m[0]], m[1..], Rendered(rest));
      HeadTail(m);
    } else {
      assert m + rest == rest;
    }
  }

  /** As written, a query can match inside an entity, and the tag inserted there
      breaks it: the text "&" with the query "amp;" shows as "&amp;". */
  lemma HighlightSplitsEntity()
    ensures HighlightQuery("&", "amp;") == "&" + Wrapped("amp;", MARK_OPEN, MARK_CLOSE)
    ensures Rendered(HighlightQuery("&", "amp;")) == "&amp;"
  {
    assert EscapeHtml("&") == "&amp;";
    assert EscapeHtml("amp;") == "amp;";
    AmpQueryMarksInsideEntity(MARK_OPEN, MARK_CLOSE);
    MarkTagsAreTags();
    MarkedAfterAmpShows("amp;", MARK_OPEN, MARK_CLOSE);
  }

  lemma MarkedAfterAmpShows(q: string, open: string, close: string)
    requires IsTag(open) && IsTag(close)
    requires forall i :: 0 <= i < |q| ==> q[i] != '<' && q[i] != '&'
    ensures Rendered("&" + Wrapped(q, open, close)) == "&" + q
  {
    calc {
      Rendered("&" + Wrapped(q, open, close));
      { AmpBeforeTagShowsItself(open + (q + close)); }
      "&" + Rendered(open + (q + close));
      { RenderedTag(open, q + close); }
      "&" + Rendered(q + close);
      { RenderedPlain(q, close); }
      "&" + (q + Rendered(close));
      { RenderedTag(close, ""); assert close + "" == close; }
      "&" + q;
    }
  }

  lemma AmpQueryMarksInsideEntity(open: string, close: string)
    ensures MarkMatches("&amp;", "amp;", open, close) == "&" + Wrapped("amp;", open, close)
  {
    var q := "amp;";
    assert "&amp;"[..4][0] != q[0];
    assert "&amp;"[1..] == q && q[..4] == q && q[4..] == "";
    assert MarkMatches(q, q, open, close) == Wrapped(q, open, close) + MarkMatches("", q, open, close);
  }

  /** An `&` followed by a tag starts no entity and shows as itself. */
  lemma AmpBeforeTagShowsItself(x: string)
    requires x != [] && x[0] == '<'
    ensures Rendered("&" + x) == "&" + Rendered(x)
  {
    var s := "&" + x;
    assert s[0] == '&' && s[1] == '<';
    assert TagAt(s) == 0 && EntityAt(s).0 == 0;
    assert s[1..] == x;
  }


  /** Corrected highlighting: match the query in the original text, then escape
      the marked and unmarked pieces separately. */
  function MarkThenEscape(t: string, q: string, open: string, close: string): string
    requires |q| >= 1
    decreases |t|
  {
    if |q| <= |t| && t[..|q|] == q then
      Wrapped(EscapeHtml(t[..|q|]), open, close) + MarkThenEscape(t[|q|..], q, open, close)
    else if t == [] then ""
    else EscapeHtmlChar(t[0]) + MarkThenEscape(t[1..], q, open, close)
  }

  function HighlightQueryCorrected(text: string, query: string): (r: string)
    ensures |query| < 2 ==> r == EscapeHtml(text)
  {
    if |query| < 2 then EscapeHtml(text) else MarkThenEscape(text, query, MARK_OPEN, MARK_CLOSE)
  }

  lemma RenderedMarkedEscape(m: string, rest: string, open: string, close: string)
    requires IsTag(open) && IsTag(close)
    ensures Rendered(Wrapped(EscapeHtml(m), open, close) + rest) == m + Rendered(rest)
  {
    calc {
      Rendered(Wrapped(EscapeHtml(m), open, close) + rest);
      { assert Wrapped(EscapeHtml(m), open, close) + rest == open + (EscapeHtml(m) + (close + rest));
        RenderedTag(open, EscapeHtml(m) + (close + rest)); }
      Rendered(EscapeHtml(m) + (close + rest));
      { RenderedEscape(m, close + rest); }
      m + Rendered(close + rest);
      { RenderedTag(close, rest); }
      m + Rendered(rest);
    }
  }

  /** Corrected highlighting never changes what is shown: the browser displays
      the original text, whatever the query. */
  lemma {:induction false} CorrectedShowsText(t: string, q: string, open: string, close: string)
    requires IsTag(open) && IsTag(close) && |q| >= 1
    ensures Rendered(MarkThenEscape(t, q, open, close)) == t
    decreases |t|
  {
    if |q| <= |t| && t[..|q|] == q {
      var m := t[..|q|];
      var rest := MarkThenEscape(t[|q|..], q, open, close);
      RenderedMarkedEscape(m, rest, open, close);
      CorrectedShowsText(t[|q|..], q, open, close);
      SplitAt(t, |q|);
    } else if t != [] {
      var rest := MarkThenEscape(t[1..], q, open, close);
      RenderedEscapedChar(t[0], rest);
      CorrectedShowsText(t[1..], q, open, close);
      HeadTail(t);
    }
  }

  lemma HighlightCorrectedShowsText(text: string, query: string)
    ensures Rendered(HighlightQueryCorrected(text, query)) == text
  {
    if |query| < 2 {
      RenderedEscape(text, "");
      assert EscapeHtml(text) + "" == EscapeHtml(text);
    } else {
      MarkTagsAreTags();
      CorrectedShowsText(text, query, MARK_OPEN, MARK_CLOSE);
    }
  }
}
