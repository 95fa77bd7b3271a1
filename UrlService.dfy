/** URL summarisation of backend/services/url_service.py: the page is
    fetched, its text summarised by the completion API, and any
    `RequestException` from the API replaced by a local summary together
    with the reason for the fallback. */
module UrlService {
  import opened Base
  import opened Strings
  import opened Json
  import opened Http
  import opened ContentFetcher
  import opened Perplexity

  const EmptyTextMessage := "콘텐츠를 추출하지 못했습니다. 다른 URL을 시도해 주세요."
  const NetworkErrorPrefix := "Perplexity API 네트워크 오류: "
  const ApiErrorPrefix := "Perplexity API 오류: "
  const EmptyBodyMessage := "응답 본문이 비어 있습니다."
  const LocalNotice := "[로컬 요약] Perplexity API와 통신하지 못해 단순 요약을 제공합니다.\n"
  const TitleLabel := "제목: "
  const MaxSnippetLines := 5
  const MaxSnippetLength := 500
  const MaxDetailLength := 200

  // ------------------------------------------------ local_summary_fallback

  /** The first five non-blank stripped lines of the text. */
  function SnippetLines(text: string): (r: seq<string>)
    ensures |r| <= MaxSnippetLines
    ensures forall k :: 0 <= k < |r| ==> r[k] != "" && Strip(r[k]) == r[k] && '\n' !in r[k]
  {
    var lines := StrippedNonBlank(Split(text, '\n'));
    StrippedNonBlankKeepsOut(Split(text, '\n'), '\n');
    lines[..Min(|lines|, MaxSnippetLines)]
  }

  /** The snippet: the snippet lines joined by newlines, or the first 500
      characters of the text when there are none. */
  function Snippet(text: string): string {
    var joined := Join("\n", SnippetLines(text));
    if joined == "" then text[..Min(|text|, MaxSnippetLength)] else joined
  }

  /** `local_summary_fallback`. */
  function LocalSummaryFallback(title: string, text: string): (r: string)
    ensures StartsWith(r, LocalNotice) && EndsWith(r, Snippet(text))
  {
    LocalNotice + TitleLabel + title + "\n\n" + Snippet(text)
  }

  /** The snippet of the local summary splits back into the first
      non-blank stripped lines (at most five) of the text, and falls back
      to the first 500 characters only when the text has no non-blank
      line. */
  lemma LocalSummaryFallbackShape(title: string, text: string)
    ensures SnippetLines(text) != [] ==> Split(Snippet(text), '\n') == SnippetLines(text)
    ensures SnippetLines(text) == [] ==> Snippet(text) == text[..Min(|text|, MaxSnippetLength)]
  {
    var lines := SnippetLines(text);
    JoinEmpty("\n", lines);
    if lines != [] {
      SplitJoin(lines, '\n');
    }
  }

  // --------------------------------------------------- _describe_http_error

  /** The message a failed response carries: `payload.get("error")` when the
      body decodes to an object, nothing when it decodes to anything else,
      and the first 200 characters of the body when it does not decode. */
  function ErrorMessage(reply: Reply, parseJson: string -> Option<Value>): Option<Value> {
    match parseJson(reply.text)
    case None => Some(Str(reply.text[..Min(|reply.text|, MaxDetailLength)]))
    case Some(Object(fields)) => Get(fields, "error")
    case Some(_) => None
  }

  /** `message or response.text[:200] or "응답 본문이 비어 있습니다."`. */
  function Detail(reply: Reply, parseJson: string -> Option<Value>): string {
    var message := ErrorMessage(reply, parseJson);
    var head := reply.text[..Min(|reply.text|, MaxDetailLength)];
    if message.Some? && Truthy(message.value) then PyStr(message.value)
    else if head != "" then head
    else EmptyBodyMessage
  }

  /** `_describe_http_error`. */
  function DescribeHttpError(message: string, response: Option<Reply>, parseJson: string -> Option<Value>): (r: string)
    ensures response.None? ==> r == ApiErrorPrefix + message
    ensures response.Some? ==>
      StartsWith(r, IntToString(response.value.code) + " " + response.value.reason + ": ")
      && EndsWith(r, Detail(response.value, parseJson))
  {
    match response
    case None => ApiErrorPrefix + message
    case Some(reply) =>
      IntToString(reply.code) + " " + reply.reason + ": " + Detail(reply, parseJson)
  }

  /** The detail is never empty; it is the decoded "error" field when that
      is truthy, else the start of the body, else the fixed message for an
      empty body. */
  lemma DetailProperties(reply: Reply, parseJson: string -> Option<Value>)
    ensures Detail(reply, parseJson) != ""
    ensures parseJson(reply.text).Some? && parseJson(reply.text).value.Object? ==>
      var error := Get(parseJson(reply.text).value.fields, "error");
      (error.Some? && error.value.Str? && error.value.s != "" ==> Detail(reply, parseJson) == error.value.s)
      && (!(error.Some? && Truthy(error.value)) && reply.text == "" ==> Detail(reply, parseJson) == EmptyBodyMessage)
    ensures parseJson(reply.text).None? && reply.text != "" ==>
      Detail(reply, parseJson) == reply.text[..Min(|reply.text|, MaxDetailLength)]
    ensures reply.text == "" && !(parseJson("").Some? && parseJson("").value.Object?) ==>
      Detail(reply, parseJson) == EmptyBodyMessage
  {
    var message := ErrorMessage(reply, parseJson);
    if message.Some? && Truthy(message.value) {
      assert message.value != Str("");
    }
  }

  // ---------------------------------------------------------- summarize_url

  /** The payload `summarize_url` returns next to the summary. */
  datatype Payload = Payload(
    summary: string,
    citations: Value,
    sourceTitle: string,
    sourceUrl: string,
    usedFallback: bool,
    fallbackReason: Option<string>)

  /** `summarize_url` once the page has been fetched: `post` is the
      outcome of the completion request for a title and text, and
      `parseJson` is `response.json()` on a failed response. */
  function SummarizePage(page: WebPage, post: (string, string) -> Result<Value, ClientFailure>,
                         parseJson: string -> Option<Value>): (r: Result<(string, Payload), Error>)
    ensures r.Success? ==>
      r.value.0 == r.value.1.summary && r.value.1.sourceTitle == page.title && r.value.1.sourceUrl == page.finalUrl
  {
    if page.text == "" then Failure(ValueError(EmptyTextMessage))
    else
      var title := page.title;
      var text := page.text;
      match SummarizeWebpage(post(title, text))
      case Success((summary, citations)) =>
        Success((summary, Payload(summary, citations, title, page.finalUrl, false, None)))
      case Failure(HttpFailure(m, response)) =>
        var summary := LocalSummaryFallback(title, text);
        Success((summary, Payload(summary, Array([]), title, page.finalUrl, true,
                                  Some(DescribeHttpError(m, response, parseJson)))))
      case Failure(NetworkFailure(m)) =>
        var summary := LocalSummaryFallback(title, text);
        Success((summary, Payload(summary, Array([]), title, page.finalUrl, true, Some(NetworkErrorPrefix + m))))
      case Failure(OtherFailure(m)) => Failure(OtherError(m))
  }

  /** `summarize_url`: `net` and `parse` are the page fetch's network and
      HTML parser. */
  function SummarizeUrl(url: string, net: Attempt -> Response, parse: string -> Document,
                        post: (string, string) -> Result<Value, ClientFailure>,
                        parseJson: string -> Option<Value>): (r: Result<(string, Payload), Error>)
    ensures r.Success? ==> FetchSpec(url, net, parse).Success?
                           && r.value.1.sourceUrl == FetchSpec(url, net, parse).value.finalUrl
  {
    match FetchSpec(url, net, parse)
    case Failure(e) => Failure(e)
    case Success(page) => SummarizePage(page, post, parseJson)
  }

  /** Empty page text is a ValueError raised before the completion API is
      asked: the outcome does not depend on it. */
  lemma EmptyTextSkipsClient(page: WebPage, post1: (string, string) -> Result<Value, ClientFailure>,
                             post2: (string, string) -> Result<Value, ClientFailure>,
                             parseJson: string -> Option<Value>)
    requires page.text == ""
    ensures SummarizePage(page, post1, parseJson) == Failure(ValueError(EmptyTextMessage))
    ensures SummarizePage(page, post1, parseJson) == SummarizePage(page, post2, parseJson)
  {
  }

  /** The payload agrees with itself and with the page: the returned
      summary is the payload's, the fallback reason is present exactly
      when the fallback was used, a fallback summary is the local one with
      no citations, and otherwise summary and citations are the client's. */
  lemma SummarizePageOutcomes(page: WebPage, post: (string, string) -> Result<Value, ClientFailure>,
                              parseJson: string -> Option<Value>)
    ensures var r := SummarizePage(page, post, parseJson);
      var client := SummarizeWebpage(post(page.title, page.text));
      && (r.Success? ==>
            var (summary, p) := r.value;
            && summary == p.summary
            && p.sourceTitle == page.title && p.sourceUrl == page.finalUrl
            && (p.usedFallback <==> p.fallbackReason.Some?)
            && (p.usedFallback <==> client.Failure?)
            && (client.Success? ==> (summary, p.citations) == client.value)
            && (p.usedFallback ==> summary == LocalSummaryFallback(page.title, page.text) && p.citations == Array([])))
      && (page.text != "" && client.Failure? && client.error.HttpFailure? ==>
            r.Success? && r.value.1.fallbackReason ==
              Some(DescribeHttpError(client.error.message, client.error.response, parseJson)))
      && (page.text != "" && client.Failure? && client.error.NetworkFailure? ==>
            r.Success? && r.value.1.fallbackReason == Some(NetworkErrorPrefix + client.error.message))
      && (r.Failure? <==> page.text == "" || (client.Failure? && client.error.OtherFailure?))
  {
  }

  /** Once the page is fetched, the only errors are the ValueError for
      empty text and whatever non-request exception the client raised. */
  lemma SummarizePageErrors(page: WebPage, post: (string, string) -> Result<Value, ClientFailure>,
                            parseJson: string -> Option<Value>)
    ensures SummarizePage(page, post, parseJson).Failure? ==>
      SummarizePage(page, post, parseJson).error == ValueError(EmptyTextMessage)
      || SummarizePage(page, post, parseJson).error.OtherError?
  {
  }

  /** `summarize_url` never lets a `RequestException` escape: the page
      fetch turns its own into ValueError, and the completion API's are
      all caught. */
  lemma SummarizeUrlNeverRequestError(url: string, net: Attempt -> Response, parse: string -> Document,
                                      post: (string, string) -> Result<Value, ClientFailure>,
                                      parseJson: string -> Option<Value>)
    ensures SummarizeUrl(url, net, parse, post, parseJson).Failure? ==>
      !SummarizeUrl(url, net, parse, post, parseJson).error.RequestError?
  {
    var fetched := FetchSpec(url, net, parse);
    FetchErrorsAreValueErrors(url, net, parse);
    if fetched.Success? {
      SummarizePageErrors(fetched.value, post, parseJson);
    }
  }
}
