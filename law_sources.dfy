/**
 * The registry of legal sources: the Code of Criminal Procedure ("cpp") and the
 * Criminal Code ("dp"), each with its data path and the word it uses for an
 * article.
 */
module LawSources {
  import opened Wrappers

  datatype LawSource = LawSource(
    key: string,
    title: string,   // the display name (`label`)
    path: string,
    description: Option<string>,
    articleLabel: string)

  const CPP: LawSource := LawSource(
    "cpp", "قانون المسطرة الجنائية", "data/cpp",
    Some("القانون رقم 22.01 المعدل بالقانون رقم 03.23"), "المادة")

  const DP: LawSource := LawSource(
    "dp", "القانون الجنائي (العام والخاص)", "data/dp",
    Some("القانون الجنائي المغربي"), "الفصل")

  /** The registry object as (property name, entry) pairs, in declaration order. */
  const LAW_SOURCES: seq<(string, LawSource)> := [("cpp", CPP), ("dp", DP)]

  /** The generic word for an article, used when a key is unknown. */
  const DEFAULT_ARTICLE_LABEL: string := "المادة"

  /** `LAW_SOURCES[k]` on a registry given as property/entry pairs. */
  function LookupEntry(entries: seq<(string, LawSource)>, k: string): (r: Option<LawSource>)
    ensures r.Some? <==> exists i :: 0 <= i < |entries| && entries[i].0 == k
    ensures r.Some? ==> exists i :: 0 <= i < |entries| && entries[i] == (k, r.value)
  {
    if entries == [] then None
    else if entries[0].0 == k then Some(entries[0].1)
    else LookupEntry(entries[1..], k)
  }

  /** `Object.values(LAW_SOURCES)`. */
  function GetLawSources(): (r: seq<LawSource>)
    ensures r == [CPP, DP]
  {
    seq(|LAW_SOURCES|, i requires 0 <= i < |LAW_SOURCES| => LAW_SOURCES[i].1)
  }

  /** `LAW_SOURCES[key]`: the entry registered under `key`, whose own key field is `key`. */
  function GetLawSource(key: string): (r: Option<LawSource>)
    ensures r.Some? ==> r.value.key == key && r.value in GetLawSources()
    ensures r.None? <==> key != "cpp" && key != "dp"
  {
    assert LAW_SOURCES[0].0 == "cpp" && LAW_SOURCES[1].0 == "dp";
    LookupEntry(LAW_SOURCES, key)
  }

  /** The first registered source whose data path is `path`. */
  function GetLawSourceByPath(path: string): (r: Option<LawSource>)
    ensures r.Some? ==> r.value.path == path && r.value in GetLawSources()
    ensures r.None? <==> forall s :: s in GetLawSources() ==> s.path != path
  {
    FindByPath(GetLawSources(), path)
  }

  function FindByPath(sources: seq<LawSource>, path: string): (r: Option<LawSource>)
    ensures r.Some? ==> r.value.path == path && r.value in sources
    ensures r.None? <==> forall s :: s in sources ==> s.path != path
  {
    if sources == [] then None
    else if sources[0].path == path then Some(sources[0])
    else FindByPath(sources[1..], path)
  }

  /** `key in LAW_SOURCES`, for the registry's own keys. */
  predicate IsValidLawSource(key: string) {
    exists i :: 0 <= i < |LAW_SOURCES| && LAW_SOURCES[i].0 == key
  }

  lemma ValidIffRegistered(key: string)
    ensures IsValidLawSource(key) <==> GetLawSource(key).Some?
    ensures IsValidLawSource(key) <==> key == "cpp" || key == "dp"
  {
    if key == "cpp" { assert LAW_SOURCES[0].0 == key; }
    if key == "dp" { assert LAW_SOURCES[1].0 == key; }
  }

  /** `source?.articleLabel || "المادة"`: the source's word for an article. */
  function GetArticleLabel(lawKey: string): (r: string)
    ensures lawKey == "cpp" ==> r == "المادة"
    ensures lawKey == "dp" ==> r == "الفصل"
    ensures !IsValidLawSource(lawKey) ==> r == DEFAULT_ARTICLE_LABEL
    ensures r != ""
  {
    ValidIffRegistered(lawKey);
    match GetLawSource(lawKey)
    case Some(s) => if s.articleLabel != "" then s.articleLabel else DEFAULT_ARTICLE_LABEL
    case None => DEFAULT_ARTICLE_LABEL
  }
}
