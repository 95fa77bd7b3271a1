/** The request handling of backend/app.py that is not Flask itself: reading
    the JSON body, tokenizing the keywords, the blank-input and
    missing-client checks, and the mapping of the services' exceptions to
    HTTP statuses. */
module Api {
  import opened Base
  import opened Strings
  import opened Json
  import opened Encyclopedia
  import opened Wiki
  import opened ContentFetcher
  import opened Perplexity
  import opened UrlService
  import opened Search

  const EmptyUrlMessage := "URL을 입력해 주세요."
  const UrlNoClientMessage := "Perplexity API 키가 설정되지 않았습니다."
  const FetchFailedMessage := "웹 페이지를 불러오지 못했습니다."
  const SummaryFailedMessage := "요약 중 오류가 발생했습니다."
  const EmptyTermMessage := "검색어를 입력해 주세요."
  const NoKeywordsMessage := "최소 한 개의 키워드를 입력해 주세요."
  const ResourceNoClientMessage := "API 키가 설정되지 않았습니다."
  const ResourceFailedMessage := "자료를 불러오지 못했습니다."
  const DefaultLang := "ko"

  /** What a view answers: its JSON body with status 200, an error object
      `{field: message}` with a status, or an exception that escapes the
      view, which Flask answers with its own status 500 page. */
  datatype Outcome<T> = Ok(body: T) | Problem(status: nat, field: string, message: string) | Unhandled

  function Status<T>(o: Outcome<T>): nat {
    match o
    case Ok(_) => 200
    case Problem(status, _, _) => status
    case Unhandled => 500
  }

  // ------------------------------------------------------------ request body

  /** `(request.get_json(force=True, silent=True) or {}).get(key) or ""`:
      `body` is the decoded body, `None` when it is not JSON. A falsy body
      counts as `{}`; a truthy body that is not an object has no `get`, and
      the view raises (`None` here). */
  function FieldOrEmpty(body: Option<Value>, key: string): (r: Option<Value>)
    ensures r.Some? ==> Truthy(r.value) || r.value == Str("")
    ensures r.None? <==> body.Some? && Truthy(body.value) && !body.value.Object?
  {
    match body
    case None => Some(Str(""))
    case Some(data) =>
      if !Truthy(data) then Some(Str(""))
      else if data.Object? then
        var got := Get(data.fields, key);
        if got.Some? && Truthy(got.value) then Some(got.value) else Some(Str(""))
      else None
  }

  // ----------------------------------------------------------------- tokens

  /** The keyword tokens: a string is split on "," and a list has each
      element `str()`-converted; either way each piece is stripped and the
      empty ones dropped. Any other value gives no tokens. */
  function Tokens(raw: Value): (r: seq<string>)
    ensures forall k :: 0 <= k < |r| ==> r[k] != "" && Strip(r[k]) == r[k]
  {
    match raw
    case Str(s) => StrippedNonBlank(Split(s, ','))
    case Array(items) => StrippedNonBlank(seq(|items|, k requires 0 <= k < |items| => PyStr(items[k])))
    case _ => []
  }

  /** A keyword string splits into its comma-free pieces. */
  lemma TokensOfString(s: string)
    ensures forall k :: 0 <= k < |Tokens(Str(s))| ==> ',' !in Tokens(Str(s))[k]
  {
    StrippedNonBlankKeepsOut(Split(s, ','), ',');
  }

  /** Stripped, non-empty, comma-free keywords joined by commas come back
      as they were, in order and with duplicates. */
  lemma TokensRoundTrip(keywords: seq<string>)
    requires forall k :: 0 <= k < |keywords| ==> keywords[k] != "" && Strip(keywords[k]) == keywords[k] && ',' !in keywords[k]
    ensures Tokens(Str(Join(",", keywords))) == keywords
  {
    if keywords == [] {
      assert Split("", ',') == [""];
      assert Strip("") == "";
    } else {
      SplitJoin(keywords, ',');
      StrippedNonBlankKeepsClean(keywords);
    }
  }

  /** A list of stripped, non-empty strings is taken as it is, in order and
      with duplicates. */
  lemma TokensOfList(keywords: seq<string>)
    requires forall k :: 0 <= k < |keywords| ==> keywords[k] != "" && Strip(keywords[k]) == keywords[k]
    ensures Tokens(Array(seq(|keywords|, k requires 0 <= k < |keywords| => Str(keywords[k])))) == keywords
  {
    var items := seq(|keywords|, k requires 0 <= k < |keywords| => Str(keywords[k]));
    assert seq(|items|, k requires 0 <= k < |items| => PyStr(items[k])) == keywords;
    StrippedNonBlankKeepsClean(keywords);
  }

  /** There are no tokens exactly when every piece is blank, or the value is
      neither a string nor a list. */
  lemma TokensEmpty(raw: Value)
    ensures Tokens(raw) == [] <==>
      match raw
      case Str(s) => forall k :: 0 <= k < |Split(s, ',')| ==> Strip(Split(s, ',')[k]) == ""
      case Array(items) => forall k :: 0 <= k < |items| ==> Strip(PyStr(items[k])) == ""
      case _ => true
  {
    match raw
    case Str(s) =>
      assert Tokens(raw) == StrippedNonBlank(Split(s, ','));
      StrippedNonBlankEmpty(Split(s, ','));
    case Array(items) =>
      var pieces := seq(|items|, k requires 0 <= k < |items| => PyStr(items[k]));
      assert Tokens(raw) == StrippedNonBlank(pieces);
      StrippedNonBlankEmpty(pieces);
      assert forall k :: 0 <= k < |items| ==> pieces[k] == PyStr(items[k]);
    case _ =>
  }

  /** The tokens are already clean, so the search query built from them is
      their plain join. */
  lemma QueryOfTokens(raw: Value)
    ensures BuildQuery(Tokens(raw)) == Join(", ", Tokens(raw))
  {
    StrippedNonBlankKeepsClean(Tokens(raw));
  }

  // ------------------------------------------------------------------ views

  /** `api_resource_search`; `clientReady` is whether the completion client
      could be built at start-up. */
  function ResourceSearch(body: Option<Value>, clientReady: bool, post: string -> Result<Value, ClientFailure>,
                          parseJson: string -> Option<Value>, wiki: Oracle): (o: Outcome<seq<Item>>)
    ensures o.Unhandled? <==> FieldOrEmpty(body, "keywords").None?
  {
    match FieldOrEmpty(body, "keywords")
    case None => Unhandled
    case Some(raw) =>
      var keywords := Tokens(raw);
      if keywords == [] then Problem(400, "error", NoKeywordsMessage)
      else if !clientReady then Problem(500, "error", ResourceNoClientMessage)
      else
        match ResearchByKeywords(keywords, post, parseJson, wiki)
        case Success(items) => Ok(items)
        case Failure(ValueError(m)) => Problem(400, "error", m)
        case Failure(_) => Problem(500, "error", ResourceFailedMessage)
  }

  /** No tokens is a 400 whether or not the client exists; with tokens, a
      missing client is a 500; with a client, the results are a 200, a
      ValueError a 400 with its text and any other exception the generic
      500. The search's ValueError for blank keywords can never be reached:
      a 400 then carries a ValueError the encyclopedia raised during the
      fallback. Every status is 200, 400 or 500. */
  lemma ResourceSearchOutcomes(body: Option<Value>, clientReady: bool, post: string -> Result<Value, ClientFailure>,
                               parseJson: string -> Option<Value>, wiki: Oracle)
    ensures var o := ResourceSearch(body, clientReady, post, parseJson, wiki);
      && Status(o) in {200, 400, 500}
      && (FieldOrEmpty(body, "keywords").Some? && Tokens(FieldOrEmpty(body, "keywords").value) == [] ==>
            o == Problem(400, "error", NoKeywordsMessage))
      && (FieldOrEmpty(body, "keywords").Some? && Tokens(FieldOrEmpty(body, "keywords").value) != [] && !clientReady ==>
            o == Problem(500, "error", ResourceNoClientMessage))
      && (FieldOrEmpty(body, "keywords").Some? && Tokens(FieldOrEmpty(body, "keywords").value) != []
          && Status(o) == 400 ==>
            RaisedByEncyclopedia(wiki, BuildQuery(Tokens(FieldOrEmpty(body, "keywords").value)), ValueError(o.message)))
      && (FieldOrEmpty(body, "keywords").Some? && Tokens(FieldOrEmpty(body, "keywords").value) != [] && clientReady ==>
            var r := ResearchByKeywords(Tokens(FieldOrEmpty(body, "keywords").value), post, parseJson, wiki);
            && (r.Success? ==> o == Ok(r.value))
            && (r.Failure? && r.error.ValueError? ==> o == Problem(400, "error", r.error.message))
            && (r.Failure? && !r.error.ValueError? ==> o == Problem(500, "error", ResourceFailedMessage)))
  {
    match FieldOrEmpty(body, "keywords")
    case None =>
    case Some(raw) =>
      var keywords := Tokens(raw);
      if keywords != [] && clientReady {
        BuildQueryEmpty(keywords);
        assert Strip(keywords[0]) != "";
        ResearchByKeywordsErrors(keywords, post, parseJson, wiki);
      }
  }

  /** `(data.get("url") or "").strip()`: a non-string URL has no `strip`. */
  function UrlOf(raw: Value): Option<string> {
    match raw
    case Str(s) => Some(Strip(s))
    case _ => None
  }

  /** `api_summarize_url`: the fetch's network and parser and the
      completion API are the oracles of the URL service. */
  function SummarizeUrlView(body: Option<Value>, clientReady: bool, net: Attempt -> Response, parse: string -> Document,
                            post: (string, string) -> Result<Value, ClientFailure>,
                            parseJson: string -> Option<Value>): (o: Outcome<Payload>)
    ensures o.Unhandled? <==> FieldOrEmpty(body, "url").None? || UrlOf(FieldOrEmpty(body, "url").value).None?
  {
    match FieldOrEmpty(body, "url")
    case None => Unhandled
    case Some(raw) =>
      match UrlOf(raw)
      case None => Unhandled
      case Some(url) =>
        if url == "" then Problem(400, "error", EmptyUrlMessage)
        else if !clientReady then Problem(500, "error", UrlNoClientMessage)
        else
          match SummarizeUrl(url, net, parse, post, parseJson)
          case Success((_, payload)) => Ok(payload)
          case Failure(ValueError(m)) => Problem(400, "error", m)
          case Failure(RequestError(_)) => Problem(502, "error", FetchFailedMessage)
          case Failure(OtherError(_)) => Problem(500, "error", SummaryFailedMessage)
  }

  /** A blank URL is a 400 whether or not the client exists; a missing
      client is a 500; a ValueError is a 400 with its text and any other
      exception the generic 500; and the 502 branch is dead, since the URL
      service lets no request exception escape. */
  lemma SummarizeUrlViewOutcomes(body: Option<Value>, clientReady: bool, net: Attempt -> Response, parse: string -> Document,
                                 post: (string, string) -> Result<Value, ClientFailure>,
                                 parseJson: string -> Option<Value>)
    ensures var o := SummarizeUrlView(body, clientReady, net, parse, post, parseJson);
      var url := FieldOrEmpty(body, "url");
      && Status(o) in {200, 400, 500}
      && (url.Some? && url.value.Str? && Strip(url.value.s) == "" ==> o == Problem(400, "error", EmptyUrlMessage))
      && (url.Some? && url.value.Str? && Strip(url.value.s) != "" && !clientReady ==>
            o == Problem(500, "error", UrlNoClientMessage))
      && (url.Some? && url.value.Str? && Strip(url.value.s) != "" && clientReady ==>
            var r := SummarizeUrl(Strip(url.value.s), net, parse, post, parseJson);
            && (r.Success? ==> o == Ok(r.value.1))
            && (r.Failure? && r.error.ValueError? ==> o == Problem(400, "error", r.error.message))
            && (r.Failure? && r.error.OtherError? ==> o == Problem(500, "error", SummaryFailedMessage)))
  {
    match FieldOrEmpty(body, "url")
    case None =>
    case Some(raw) =>
      match UrlOf(raw)
      case None =>
      case Some(url) =>
        if url != "" && clientReady {
          SummarizeUrlNeverRequestError(url, net, parse, post, parseJson);
        }
  }

  /** `(request.args.get("term") or "").strip()`. */
  function TermOf(term: Option<string>): string {
    match term case Some(t) => Strip(t) case None => ""
  }

  /** `request.args.get("lang", "ko")`. */
  function LangOf(lang: Option<string>): string {
    match lang case Some(l) => l case None => DefaultLang
  }

  /** `api_wiki_search`: the summary text, or a 400 for a blank term; a
      failed search inside the disambiguation fallback escapes the view. */
  function WikiSearchView(term: Option<string>, lang: Option<string>, wiki: Oracle): (o: Outcome<string>)
    ensures o.Problem? ==> o == Problem(400, "message", EmptyTermMessage)
  {
    var t := TermOf(term);
    if t == "" then Problem(400, "message", EmptyTermMessage)
    else
      match SummarizeKeyword(wiki, t, LangOf(lang), DefaultSentences)
      case Success(text) => Ok(text)
      case Failure(_) => Unhandled
  }

  /** `api_wiki_force`: the forced summary and its link, or a 400 for a
      blank term; a failed search escapes the view. */
  function WikiForceView(term: Option<string>, lang: Option<string>, wiki: Oracle): (o: Outcome<Resolution>)
    ensures o.Problem? ==> o == Problem(400, "message", EmptyTermMessage)
  {
    var t := TermOf(term);
    if t == "" then Problem(400, "message", EmptyTermMessage)
    else
      match ForceSummaryOf(wiki, t, LangOf(lang), DefaultSentences)
      case Success(res) => Ok(res)
      case Failure(_) => Unhandled
  }

  /** Both wiki views answer 400 exactly for a blank term, before asking
      the encyclopedia; otherwise they answer what the service returns for
      the stripped term, in the requested language or Korean, and a failed
      service call escapes the view. */
  lemma WikiViewsOutcomes(term: Option<string>, lang: Option<string>, wiki: Oracle)
    ensures Status(WikiSearchView(term, lang, wiki)) == 400 <==> TermOf(term) == ""
    ensures Status(WikiForceView(term, lang, wiki)) == 400 <==> TermOf(term) == ""
    ensures TermOf(term) == "" ==>
      WikiSearchView(term, lang, wiki) == Problem(400, "message", EmptyTermMessage)
      && WikiForceView(term, lang, wiki) == Problem(400, "message", EmptyTermMessage)
    ensures TermOf(term) != "" ==>
      var s := SummarizeKeyword(wiki, TermOf(term), LangOf(lang), DefaultSentences);
      var f := ForceSummaryOf(wiki, TermOf(term), LangOf(lang), DefaultSentences);
      && (s.Success? ==> WikiSearchView(term, lang, wiki) == Ok(s.value))
      && (s.Failure? ==> WikiSearchView(term, lang, wiki) == Unhandled)
      && (f.Success? ==> WikiForceView(term, lang, wiki) == Ok(f.value))
      && (f.Failure? ==> WikiForceView(term, lang, wiki) == Unhandled)
  {
  }
}
