/** Keyword resource search of backend/services/search_service.py: the
    completion API first, then the encyclopedia's search, then a fixed
    list of curated resources, each item tagged with where it came from. */
module Search {
  import opened Base
  import opened Strings
  import opened Json
  import opened Encyclopedia
  import opened Perplexity

  const EmptyKeywordsMessage := "키워드가 비어 있습니다."
  const ManyPagesPrefix := "관련 문서가 많습니다: "
  const PageMissingMessage := "문서를 찾을 수 없습니다."
  const DefaultLimit := 3
  const FallbackSentences := 2
  const OptionsShown := 3

  /** One resource item; `via` is absent until a source is attached. */
  datatype Item = Item(title: string, summary: string, url: string, via: Option<string>)

  const CuratedResources: seq<Item> := [
    Item("OWASP Top 10",
         "OWASP 재단이 정리한 최신 웹 취약점 순위와 완화 전략을 확인할 수 있습니다.",
         "https://owasp.org/Top10/", Some("curated")),
    Item("MITRE ATT&CK",
         "공격 기법·탐지·대응 전략을 망라한 MITRE ATT&CK 지식베이스입니다.",
         "https://attack.mitre.org/", Some("curated")),
    Item("Google Scholar",
         "키워드로 최신 학술 논문과 특허를 검색할 수 있는 Google Scholar 링크입니다.",
         "https://scholar.google.com/", Some("curated"))]

  // ---------------------------------------------------------- _attach_source

  /** `_attach_source`: an item whose `via` is truthy is returned as is;
      otherwise `via` is set to `source`. */
  function AttachSource(item: Item, source: string): (r: Item)
    ensures r.title == item.title && r.summary == item.summary && r.url == item.url && r.via.Some?
  {
    if item.via.Some? && item.via.value != "" then item else item.(via := Some(source))
  }

  /** Attaching keeps title, summary and url, keeps a truthy `via`, and
      otherwise sets it to the source; attaching twice equals attaching
      once. */
  lemma AttachSourceProperties(item: Item, source: string)
    ensures var r := AttachSource(item, source);
      r.title == item.title && r.summary == item.summary && r.url == item.url
      && (item.via.Some? && item.via.value != "" ==> r == item)
      && (!(item.via.Some? && item.via.value != "") ==> r.via == Some(source))
      && AttachSource(r, source) == r
  {
  }

  // ------------------------------------------------------------ KOREAN_REGEX

  /** The character class of `KOREAN_REGEX`: Hangul compatibility jamo and
      Hangul syllables. */
  predicate IsHangul(c: char) {
    ('\U{3130}' <= c <= '\U{318F}') || ('\U{AC00}' <= c <= '\U{D7A3}')
  }

  /** `KOREAN_REGEX.search(s)` succeeds: the scan finds a matching character. */
  predicate SearchHangul(s: string) {
    s != [] && (IsHangul(s[0]) || SearchHangul(s[1..]))
  }

  /** The scan succeeds exactly when some character is in the class. */
  lemma {:induction false} SearchHangulMeaning(s: string)
    ensures SearchHangul(s) <==> exists i :: 0 <= i < |s| && IsHangul(s[i])
  {
    if s != [] {
      SearchHangulMeaning(s[1..]);
      if !IsHangul(s[0]) && exists i :: 0 <= i < |s| && IsHangul(s[i]) {
        var i :| 0 <= i < |s| && IsHangul(s[i]);
        assert s[1..][i - 1] == s[i];
      }
    }
  }

  /** The encyclopedia language for a query. */
  function Lang(query: string): string {
    if SearchHangul(query) then "ko" else "en"
  }

  /** The language is "ko" exactly when the query holds a Hangul character,
      and "en" otherwise. */
  lemma LangMeaning(query: string)
    ensures Lang(query) == "ko" <==> exists i :: 0 <= i < |query| && IsHangul(query[i])
    ensures Lang(query) != "ko" ==> Lang(query) == "en"
  {
    SearchHangulMeaning(query);
  }

  // ------------------------------------------------------ fallback_resources

  /** The summary of one encyclopedia entry; any exception other than
      DisambiguationError and PageError escapes. */
  function EntryFor(wiki: Oracle, lang: string, title: string): Result<Item, Error> {
    var url := ArticleUrl(lang, ReplaceChar(title, ' ', '_'));
    match wiki.summary(SummaryQuery(lang, title, FallbackSentences, true))
    case Article(s) => Success(Item(title, s, url, None))
    case Disambiguation(options) =>
      Success(Item(title, ManyPagesPrefix + Join(", ", options[..Min(|options|, OptionsShown)]), url, None))
    case Missing => Success(Item(title, PageMissingMessage, url, None))
    case Failed(e) => Failure(e)
  }

  /** The entries built for the titles, in order, or the first exception. */
  function Entries(wiki: Oracle, lang: string, titles: seq<string>): (r: Result<seq<Item>, Error>)
    ensures r.Success? ==> |r.value| == |titles|
  {
    if titles == [] then Success([])
    else
      match Entries(wiki, lang, titles[..|titles| - 1])
      case Failure(e) => Failure(e)
      case Success(items) =>
        match EntryFor(wiki, lang, titles[|titles| - 1])
        case Failure(e) => Failure(e)
        case Success(item) => Success(items + [item])
  }

  /** The only exception a lookup lets through is one a summary call
      raised, unchanged. */
  lemma {:induction false} EntriesErrors(wiki: Oracle, lang: string, titles: seq<string>)
    ensures Entries(wiki, lang, titles).Failure? ==>
      exists t :: t in titles
        && wiki.summary(SummaryQuery(lang, t, FallbackSentences, true)) == Failed(Entries(wiki, lang, titles).error)
  {
    if titles != [] {
      var init := titles[..|titles| - 1];
      EntriesErrors(wiki, lang, init);
      if Entries(wiki, lang, init).Failure? {
        var t :| t in init
          && wiki.summary(SummaryQuery(lang, t, FallbackSentences, true)) == Failed(Entries(wiki, lang, init).error);
        assert t in titles;
      } else if Entries(wiki, lang, titles).Failure? {
        assert titles[|titles| - 1] in titles;
      }
    }
  }

  /** One entry per title, in the titles' order, each with its title and a
      link whose spaces became underscores. */
  lemma {:induction false} EntriesShape(wiki: Oracle, lang: string, titles: seq<string>)
    requires Entries(wiki, lang, titles).Success?
    ensures var items := Entries(wiki, lang, titles).value;
      |items| == |titles|
      && forall k :: 0 <= k < |titles| ==>
           items[k].title == titles[k] && items[k].via == None
           && items[k].url == ArticleUrl(lang, ReplaceChar(titles[k], ' ', '_'))
           && EntryFor(wiki, lang, titles[k]) == Success(items[k])
  {
    if titles != [] {
      var init := titles[..|titles| - 1];
      EntriesShape(wiki, lang, init);
      var items := Entries(wiki, lang, titles).value;
      forall k | 0 <= k < |init|
        ensures items[k] == Entries(wiki, lang, init).value[k] && titles[k] == init[k]
      {
      }
    }
  }

  /** An exception for one title ends the walk: the entries of a longer
      list fail with the same exception. */
  lemma {:induction false} EntriesFailureStops(wiki: Oracle, lang: string, titles: seq<string>, j: nat)
    requires j <= |titles|
    requires Entries(wiki, lang, titles[..j]).Failure?
    ensures Entries(wiki, lang, titles) == Entries(wiki, lang, titles[..j])
    decreases |titles| - j
  {
    if j < |titles| {
      assert titles[..j + 1][..j] == titles[..j];
      EntriesFailureStops(wiki, lang, titles, j + 1);
    } else {
      assert titles[..j] == titles;
    }
  }

  /** The curated items, each summary followed by the query. */
  function Curated(query: string): seq<Item> {
    seq(|CuratedResources|, k requires 0 <= k < |CuratedResources| =>
      CuratedResources[k].(summary := CuratedResources[k].summary + " (검색어: " + query + ")"))
  }

  /** The source attached at the end of `fallback_resources`. */
  function SourceFor(item: Item): string {
    if Contains(item.url, "wikipedia.org") then "wikipedia"
    else match item.via case Some(v) => v case None => "fallback"
  }

  function Tagged(items: seq<Item>): (r: seq<Item>)
    ensures |r| == |items|
  {
    seq(|items|, k requires 0 <= k < |items| => AttachSource(items[k], SourceFor(items[k])))
  }

  /** The specification of `fallback_resources`; `Failure` is an exception
      of the search call or of a summary call. */
  function FallbackResourcesOf(query: string, wiki: Oracle, limit: nat): Result<seq<Item>, Error> {
    var lang := Lang(query);
    match wiki.search(lang, query)
    case SearchFailed(e) => Failure(e)
    case Titles(ts) =>
      match Entries(wiki, lang, ts[..Min(|ts|, limit)])
      case Failure(e) => Failure(e)
      case Success(entries) => Success(Tagged(if entries == [] then Curated(query) else entries))
  }

  /** `fallback_resources`: at most `limit` search results are looked up
      one after another; without any, the curated resources are used. */
  method FallbackResources(query: string, wiki: Oracle, limit: nat) returns (r: Result<seq<Item>, Error>)
    ensures r == FallbackResourcesOf(query, wiki, limit)
  {
    var lang := Lang(query);
    var reply := wiki.search(lang, query);
    if reply.SearchFailed? {
      return Failure(reply.error);
    }
    var titles := reply.titles[..Min(|reply.titles|, limit)];
    var entries := [];
    var i := 0;
    while i < |titles|
      invariant 0 <= i <= |titles|
      invariant Entries(wiki, lang, titles[..i]) == Success(entries)
    {
      assert titles[..i + 1][..i] == titles[..i];
      var entry := EntryFor(wiki, lang, titles[i]);
      if entry.Failure? {
        EntriesFailureStops(wiki, lang, titles, i + 1);
        return Failure(entry.error);
      }
      entries := entries + [entry.value];
      i := i + 1;
    }
    assert titles[..i] == titles;
    if entries == [] {
      entries := Curated(query);
    }
    return Success(Tagged(entries));
  }

  /** The curated items keep their titles and urls, are tagged "curated",
      and carry the query after their own summary. */
  lemma CuratedShape(query: string)
    ensures |Tagged(Curated(query))| == 3
    ensures forall k :: 0 <= k < 3 ==>
      var item := Tagged(Curated(query))[k];
      item.title == CuratedResources[k].title && item.url == CuratedResources[k].url
      && item.summary == CuratedResources[k].summary + " (검색어: " + query + ")"
      && item.via == Some("curated")
  {
  }

  /** An encyclopedia url names wikipedia.org. */
  lemma ArticleUrlNamesWikipedia(lang: string, path: string)
    ensures Contains(ArticleUrl(lang, path), "wikipedia.org")
  {
    var url := ArticleUrl(lang, path);
    var i := |"https://" + lang + "."|;
    assert url == "https://" + lang + "." + "wikipedia.org" + "/wiki/" + path;
    assert url[i..i + |"wikipedia.org"|] == "wikipedia.org";
    ContainsAt(url, "wikipedia.org", i);
  }

  /** What `fallback_resources` returns: with search results, one item per
      result (at most `limit`), in search order, tagged "wikipedia"; with
      none, exactly the curated items with the query attached. */
  lemma FallbackResourcesShape(query: string, wiki: Oracle, limit: nat)
    requires FallbackResourcesOf(query, wiki, limit).Success?
    ensures var items := FallbackResourcesOf(query, wiki, limit).value;
      var ts := wiki.search(Lang(query), query).titles;
      var n := Min(|ts|, limit);
      (n == 0 ==> items == Tagged(Curated(query)))
      && (n > 0 ==>
            |items| == n
            && forall k :: 0 <= k < n ==>
                 items[k].title == ts[k] && items[k].via == Some("wikipedia")
                 && items[k].url == ArticleUrl(Lang(query), ReplaceChar(ts[k], ' ', '_')))
  {
    var lang := Lang(query);
    var ts := wiki.search(lang, query).titles;
    var titles := ts[..Min(|ts|, limit)];
    EntriesShape(wiki, lang, titles);
    var entries := Entries(wiki, lang, titles).value;
    if titles != [] {
      forall k | 0 <= k < |titles|
        ensures Tagged(entries)[k].via == Some("wikipedia")
      {
        ArticleUrlNamesWikipedia(lang, ReplaceChar(titles[k], ' ', '_'));
      }
    }
  }

  /** A disambiguation lists its first three options. */
  lemma EntryForDisambiguation(wiki: Oracle, lang: string, title: string)
    requires wiki.summary(SummaryQuery(lang, title, FallbackSentences, true)).Disambiguation?
    ensures var options := wiki.summary(SummaryQuery(lang, title, FallbackSentences, true)).options;
      EntryFor(wiki, lang, title).Success?
      && EntryFor(wiki, lang, title).value.summary == ManyPagesPrefix + Join(", ", options[..Min(|options|, OptionsShown)])
  {
  }

  /** `e` is an exception the encyclopedia raised while `query` was
      looked up: from the search, or from the summary of a found title. */
  predicate RaisedByEncyclopedia(wiki: Oracle, query: string, e: Error) {
    var reply := wiki.search(Lang(query), query);
    reply == SearchFailed(e)
    || (reply.Titles?
        && exists t :: t in reply.titles && wiki.summary(SummaryQuery(Lang(query), t, FallbackSentences, true)) == Failed(e))
  }

  /** `fallback_resources` raises only what the search or a summary call
      raised (neither DisambiguationError nor PageError), unchanged. */
  lemma FallbackResourcesFailures(query: string, wiki: Oracle, limit: nat)
    ensures FallbackResourcesOf(query, wiki, limit).Failure? ==>
      RaisedByEncyclopedia(wiki, query, FallbackResourcesOf(query, wiki, limit).error)
  {
    var lang := Lang(query);
    if FallbackResourcesOf(query, wiki, limit).Failure? && wiki.search(lang, query).Titles? {
      var ts := wiki.search(lang, query).titles;
      var titles := ts[..Min(|ts|, limit)];
      EntriesErrors(wiki, lang, titles);
      var t :| t in titles
        && wiki.summary(SummaryQuery(lang, t, FallbackSentences, true)) == Failed(Entries(wiki, lang, titles).error);
      assert t in ts;
    }
  }

  /** A failing walk has a title whose summary call raised. */
  lemma {:induction false} EntriesFailureAt(wiki: Oracle, lang: string, titles: seq<string>) returns (k: nat)
    requires Entries(wiki, lang, titles).Failure?
    ensures k < |titles|
    ensures wiki.summary(SummaryQuery(lang, titles[k], FallbackSentences, true)) == Failed(Entries(wiki, lang, titles).error)
  {
    var init := titles[..|titles| - 1];
    if Entries(wiki, lang, init).Failure? {
      k := EntriesFailureAt(wiki, lang, init);
    } else {
      k := |titles| - 1;
    }
  }

  // ---------------------------------------------------- research_by_keywords

  /** `", ".join(kw.strip() for kw in keywords if kw.strip())`. */
  function BuildQuery(keywords: seq<string>): string {
    Join(", ", StrippedNonBlank(keywords))
  }

  /** The query is empty exactly when every keyword is blank. */
  lemma BuildQueryEmpty(keywords: seq<string>)
    ensures BuildQuery(keywords) == "" <==> forall k :: 0 <= k < |keywords| ==> Strip(keywords[k]) == ""
  {
    JoinEmpty(", ", StrippedNonBlank(keywords));
    StrippedNonBlankEmpty(keywords);
  }

  /** An item of the completion API's list, before a source is attached. */
  function FromResource(r: Resource): Item {
    Item(r.title, r.summary, r.url, None)
  }

  /** The specification of `research_by_keywords`; `post` is the completion
      request for a query, `parseJson` is `json.loads`. */
  function ResearchByKeywords(keywords: seq<string>, post: string -> Result<Value, ClientFailure>,
                              parseJson: string -> Option<Value>, wiki: Oracle): (r: Result<seq<Item>, Error>)
    ensures BuildQuery(keywords) == "" ==> r == Failure(ValueError(EmptyKeywordsMessage))
  {
    var query := BuildQuery(keywords);
    if query == "" then Failure(ValueError(EmptyKeywordsMessage))
    else
      match ResearchResources(post(query), parseJson)
      case Success(resources) =>
        if resources != [] then
          Success(seq(|resources|, k requires 0 <= k < |resources| =>
            AttachSource(FromResource(resources[k]), "perplexity")))
        else FallbackResourcesOf(query, wiki, DefaultLimit)
      case Failure(_) => FallbackResourcesOf(query, wiki, DefaultLimit)
  }

  /** The three tiers: blank keywords are a ValueError; a non-empty answer
      of the completion API is returned in order, tagged "perplexity"; an
      exception or an empty answer gives exactly `fallback_resources`. */
  lemma ResearchByKeywordsTiers(keywords: seq<string>, post: string -> Result<Value, ClientFailure>,
                                parseJson: string -> Option<Value>, wiki: Oracle)
    ensures var query := BuildQuery(keywords);
      var primary := ResearchResources(post(query), parseJson);
      var r := ResearchByKeywords(keywords, post, parseJson, wiki);
      && ((forall k :: 0 <= k < |keywords| ==> Strip(keywords[k]) == "") ==>
            r == Failure(ValueError(EmptyKeywordsMessage)))
      && (query != "" && primary.Success? && primary.value != [] ==>
            r.Success? && |r.value| == |primary.value|
            && forall k :: 0 <= k < |r.value| ==>
                 var item := r.value[k];
                 var res := primary.value[k];
                 item.title == res.title && item.summary == res.summary && item.url == res.url
                 && item.via == Some("perplexity"))
      && (query != "" && (primary.Failure? || primary.value == []) ==>
            r == FallbackResourcesOf(query, wiki, DefaultLimit))
  {
    BuildQueryEmpty(keywords);
  }

  /** The service's own ValueError is raised for blank keywords only; any
      other failure is an exception the encyclopedia raised during the
      fallback, passed on unchanged. */
  lemma ResearchByKeywordsErrors(keywords: seq<string>, post: string -> Result<Value, ClientFailure>,
                                 parseJson: string -> Option<Value>, wiki: Oracle)
    ensures var r := ResearchByKeywords(keywords, post, parseJson, wiki);
      r.Failure? ==>
        (BuildQuery(keywords) == "" && r.error == ValueError(EmptyKeywordsMessage))
        || (BuildQuery(keywords) != "" && RaisedByEncyclopedia(wiki, BuildQuery(keywords), r.error))
  {
    FallbackResourcesFailures(BuildQuery(keywords), wiki, DefaultLimit);
  }
}
