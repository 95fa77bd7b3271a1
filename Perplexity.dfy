/** The completion-API client of backend/services/perplexity_client.py:
    the API-key check of its constructor, the extraction of the summary
    and citations from a chat-completion reply, and the best-effort
    extraction of a resource list from the model's text. The HTTP post
    itself is outside the model: its outcome is an input. */
module Perplexity {
  import opened Base
  import opened Strings
  import opened Json

  const ApiUrl := "https://api.perplexity.ai/chat/completions"
  const MissingKeyMessage := "PERPLEXITY_API_KEY가 설정되어 있지 않습니다."
  const DefaultTimeout := 20

  const DefaultTitle := "제목 없음"
  const DefaultSummary := "요약이 제공되지 않았습니다."
  const SentinelTitle := "결과를 불러오지 못했습니다"
  const SentinelSummary := "Perplexity 응답 형식이 올바르지 않습니다. 다시 시도해 주세요."

  // --------------------------------------------------------------- client

  /** The client's configuration; it never changes after construction. */
  class PerplexityClient {
    const apiKey: string
    const model: string
    const temperature: real
    const timeout: int

    constructor(apiKey: string, model: string, temperature: real, timeout: int)
      requires apiKey != ""
      ensures this.apiKey == apiKey && this.model == model
      ensures this.temperature == temperature && this.timeout == timeout
    {
      this.apiKey := apiKey;
      this.model := model;
      this.temperature := temperature;
      this.timeout := timeout;
    }
  }

  /** `PerplexityClient(api_key, model, temperature, timeout)`: a ValueError
      for an empty key, otherwise a new client holding the arguments as
      given. */
  method NewClient(apiKey: string, model: string, temperature: real, timeout: int)
    returns (r: Result<PerplexityClient, Error>)
    ensures r.Failure? <==> apiKey == ""
    ensures r.Failure? ==> r.error == ValueError(MissingKeyMessage)
    ensures r.Success? ==>
              fresh(r.value)
              && r.value.apiKey == apiKey && r.value.model == model
              && r.value.temperature == temperature && r.value.timeout == timeout
  {
    if apiKey == "" {
      return Failure(ValueError(MissingKeyMessage));
    }
    var client := new PerplexityClient(apiKey, model, temperature, timeout);
    return Success(client);
  }

  // ------------------------------------------------------ client outcomes

  /** The HTTP response an `HTTPError` carries. */
  datatype Reply = Reply(code: int, reason: string, text: string)

  /** Why a client call raised: an `HTTPError` (with the text of the
      exception and, when attached, the response), another
      `RequestException`, or any other exception (a reply of the wrong
      shape raises KeyError, IndexError, TypeError or AttributeError). */
  datatype ClientFailure =
    | HttpFailure(message: string, response: Option<Reply>)
    | NetworkFailure(message: string)
    | OtherFailure(message: string)

  const MalformedReply := "malformed completion reply"

  /** `data["choices"][0]` when the reply has that shape, as the fields of
      the choice object. */
  function FirstChoice(data: Value): Option<seq<(string, Value)>> {
    match data
    case Object(fields) =>
      (match Get(fields, "choices")
       case Some(Array(choices)) =>
         if choices != [] && choices[0].Object? then Some(choices[0].fields) else None
       case _ => None)
    case _ => None
  }

  /** `choice["message"]["content"]`, when present. */
  function MessageContent(choice: seq<(string, Value)>): Option<Value> {
    match Get(choice, "message")
    case Some(Object(message)) => Get(message, "content")
    case _ => None
  }

  /** `choice.get("citations") or []`. */
  function Citations(choice: seq<(string, Value)>): Value {
    var c := GetOr(choice, "citations", Null);
    if Truthy(c) then c else Array([])
  }

  /** The result extraction of `summarize_webpage`: the stripped content
      of the first choice and its citations (an empty list when they are
      missing or falsy). */
  function ExtractSummary(data: Value): (r: Result<(string, Value), ClientFailure>)
    ensures r.Failure? ==> r.error == OtherFailure(MalformedReply)
  {
    match FirstChoice(data)
    case None => Failure(OtherFailure(MalformedReply))
    case Some(choice) =>
      match MessageContent(choice)
      case Some(Str(content)) => Success((Strip(content), Citations(choice)))
      case _ => Failure(OtherFailure(MalformedReply))
  }

  /** A chat-completion reply whose first choice has `content` and, when
      given, `citations`. */
  function CompletionReply(content: string, citations: Option<Value>): Value {
    var message := Object([("role", Str("assistant")), ("content", Str(content))]);
    var choice := [("message", message)] + (match citations case Some(c) => [("citations", c)] case None => []);
    Object([("choices", Array([Object(choice)]))])
  }

  /** From a well-formed reply the summary is the stripped content and the
      citations are the reply's own when truthy and `[]` otherwise. */
  lemma ExtractSummaryOfReply(content: string, citations: Option<Value>)
    ensures ExtractSummary(CompletionReply(content, citations)) ==
      Success((Strip(content),
        if citations.Some? && Truthy(citations.value) then citations.value else Array([])))
  {
    var message := Object([("role", Str("assistant")), ("content", Str(content))]);
    var choice := [("message", message)] + (match citations case Some(c) => [("citations", c)] case None => []);
    assert Get(message.fields, "content") == Some(Str(content));
    assert Get(choice, "message") == Some(message);
    assert FirstChoice(CompletionReply(content, citations)) == Some(choice);
  }

  /** Whatever the reply, an extracted summary has no whitespace at its
      ends and the citations are truthy or exactly `[]`. */
  lemma ExtractSummaryShape(data: Value)
    requires ExtractSummary(data).Success?
    ensures var (summary, citations) := ExtractSummary(data).value;
      Strip(summary) == summary && (Truthy(citations) || citations == Array([]))
  {
    var choice := FirstChoice(data).value;
    StripIdempotent(MessageContent(choice).value.s);
  }

  /** `summarize_webpage` given the outcome of its post: a failed post
      propagates, a reply of the wrong shape raises. */
  function SummarizeWebpage(posted: Result<Value, ClientFailure>): Result<(string, Value), ClientFailure> {
    match posted
    case Failure(e) => Failure(e)
    case Success(data) => ExtractSummary(data)
  }

  // --------------------------------------------------- _parse_json_array

  /** One item of `research_resources`' result. */
  datatype Resource = Resource(title: string, summary: string, url: string)

  /** The single item returned when the model's text holds no JSON array. */
  const Sentinel := Resource(SentinelTitle, SentinelSummary, "")

  /** `text[text.index("[") : text.rindex("]") + 1]`, or nothing when either
      bracket is missing; the slice is empty when the last ']' comes
      before the first '['. */
  function ArraySlice(text: string): Option<string> {
    match IndexOf(text, '[')
    case None => None
    case Some(start) =>
      match LastIndexOf(text, ']')
      case None => None
      case Some(close) => Some(if close < start then "" else text[start..close + 1])
  }

  /** The slice runs from the first '[' through the last ']' of the text. */
  lemma ArraySliceBounds(text: string)
    ensures ArraySlice(text).Some? <==> '[' in text && ']' in text
    ensures ArraySlice(text).Some? && ArraySlice(text).value != "" ==>
      exists start, close :: 0 <= start < close < |text|
        && ArraySlice(text).value == text[start..close + 1]
        && '[' !in text[..start] && ']' !in text[close + 1..]
        && text[start] == '[' && text[close] == ']'
  {
    if ArraySlice(text).Some? && ArraySlice(text).value != "" {
      var start := IndexOf(text, '[').value;
      var close := LastIndexOf(text, ']').value;
      assert text[start] != text[close];
    }
  }

  /** `str(item.get(key, default))`. */
  function FieldText(fields: seq<(string, Value)>, key: string, default: string): string {
    PyStr(GetOr(fields, key, Str(default)))
  }

  /** The item built from one decoded object. */
  function ToResource(fields: seq<(string, Value)>): Resource {
    Resource(FieldText(fields, "title", DefaultTitle),
             FieldText(fields, "summary", DefaultSummary),
             FieldText(fields, "url", ""))
  }

  /** What one element of the array contributes: an object gives one item,
      anything else is skipped. */
  function ElementItems(v: Value): seq<Resource> {
    match v
    case Object(fields) => [ToResource(fields)]
    case _ => []
  }

  /** The list the loop of `_parse_json_array` builds from the array. */
  function NormalizeItems(items: seq<Value>): (r: seq<Resource>)
    ensures |r| <= |items|
  {
    if items == [] then []
    else NormalizeItems(items[..|items| - 1]) + ElementItems(items[|items| - 1])
  }

  /** The items follow the array's order: the result of a concatenation is
      the concatenation of the results. */
  lemma {:induction false} NormalizeItemsConcat(a: seq<Value>, b: seq<Value>)
    ensures NormalizeItems(a + b) == NormalizeItems(a) + NormalizeItems(b)
    decreases |b|
  {
    if b == [] {
      assert a + b == a;
    } else {
      var init := b[..|b| - 1];
      assert (a + b)[..|a + b| - 1] == a + init;
      assert (a + b)[|a + b| - 1] == b[|b| - 1];
      NormalizeItemsConcat(a, init);
    }
  }

  /** When every element is an object, each one gives the item at its own
      position. */
  lemma {:induction false} NormalizeItemsAllObjects(items: seq<Value>)
    requires forall k :: 0 <= k < |items| ==> items[k].Object?
    ensures |NormalizeItems(items)| == |items|
    ensures forall k :: 0 <= k < |items| ==> ElementItems(items[k]) == [NormalizeItems(items)[k]]
  {
    if items != [] {
      var init := items[..|items| - 1];
      var last := items[|items| - 1];
      NormalizeItemsAllObjects(init);
      var prev := NormalizeItems(init);
      var r := NormalizeItems(items);
      assert |ElementItems(last)| == 1;
      assert r == prev + ElementItems(last);
      forall k | 0 <= k < |items|
        ensures ElementItems(items[k]) == [r[k]]
      {
        if k < |init| {
          assert r[k] == prev[k];
          assert init[k] == items[k];
        }
      }
    }
  }

  /** So an array of objects gives, position by position, the items read
      from them with their defaults. */
  lemma NormalizeItemsOfObjects(items: seq<Value>)
    requires forall k :: 0 <= k < |items| ==> items[k].Object?
    ensures |NormalizeItems(items)| == |items|
    ensures forall k :: 0 <= k < |items| ==> NormalizeItems(items)[k] == ToResource(items[k].fields)
  {
    NormalizeItemsAllObjects(items);
  }

  /** Walking one more element appends what that element contributes. */
  lemma NormalizeItemsSnoc(items: seq<Value>, i: nat)
    requires i < |items|
    ensures NormalizeItems(items[..i + 1]) == NormalizeItems(items[..i]) + ElementItems(items[i])
  {
    assert items[..i + 1][..i] == items[..i];
  }

  /** An object anywhere in the array gives at least one item. */
  lemma NormalizeItemsKeepsObject(items: seq<Value>, k: nat)
    requires k < |items|
    ensures items[k].Object? ==> NormalizeItems(items) != []
  {
    assert items == items[..k + 1] + items[k + 1..];
    NormalizeItemsConcat(items[..k + 1], items[k + 1..]);
    NormalizeItemsSnoc(items, k);
  }

  /** An array without objects gives no items. */
  lemma {:induction false} NormalizeItemsNoObjects(items: seq<Value>)
    requires forall k :: 0 <= k < |items| ==> !items[k].Object?
    ensures NormalizeItems(items) == []
  {
    if items != [] {
      NormalizeItemsNoObjects(items[..|items| - 1]);
    }
  }

  /** `_parse_json_array`, with `json.loads` as `parse` (None when it raises). */
  function ParseJsonArrayOf(text: string, parse: string -> Option<Value>): (r: seq<Resource>)
    ensures r == [] ==> ArraySlice(text).Some? && parse(ArraySlice(text).value).Some?
                        && parse(ArraySlice(text).value).value.Array?
  {
    match ArraySlice(text)
    case None => [Sentinel]
    case Some(slice) =>
      match parse(slice)
      case Some(Array(items)) => NormalizeItems(items)
      case _ => [Sentinel]
  }

  /** The parse outcomes: a missing bracket, text that does not decode or
      decodes to something other than a list gives exactly the sentinel; a
      decoded list gives its items (so an empty list gives none). */
  lemma ParseJsonArrayCases(text: string, parse: string -> Option<Value>)
    ensures !('[' in text && ']' in text) ==> ParseJsonArrayOf(text, parse) == [Sentinel]
    ensures '[' in text && ']' in text ==>
      var slice := ArraySlice(text).value;
      (parse(slice).Some? && parse(slice).value.Array? ==>
         ParseJsonArrayOf(text, parse) == NormalizeItems(parse(slice).value.items))
      && (!(parse(slice).Some? && parse(slice).value.Array?) ==>
         ParseJsonArrayOf(text, parse) == [Sentinel])
  {
    ArraySliceBounds(text);
  }

  /** `_parse_json_array`: the array is sliced out, decoded and walked in
      order, dropping the elements that are not objects. */
  method ParseJsonArray(text: string, parse: string -> Option<Value>) returns (normalized: seq<Resource>)
    ensures normalized == ParseJsonArrayOf(text, parse)
  {
    var start := IndexOf(text, '[');
    var close := LastIndexOf(text, ']');
    if start.None? || close.None? {
      return [Sentinel];
    }
    var arrayText := if close.value < start.value then "" else text[start.value..close.value + 1];
    assert ArraySlice(text) == Some(arrayText);
    var parsed := parse(arrayText);
    if parsed.None? || !parsed.value.Array? {
      return [Sentinel];
    }
    normalized := NormalizeList(parsed.value.items);
  }

  /** The loop of `_parse_json_array` over the decoded list: every object
      element becomes a resource, in order; other elements are dropped. */
  method NormalizeList(items: seq<Value>) returns (normalized: seq<Resource>)
    ensures normalized == NormalizeItems(items)
  {
    normalized := [];
    var i := 0;
    while i < |items|
      invariant 0 <= i <= |items|
      invariant normalized == NormalizeItems(items[..i])
    {
      NormalizeItemsSnoc(items, i);
      if items[i].Object? {
        normalized := normalized + [ToResource(items[i].fields)];
      }
      i := i + 1;
    }
    assert items[..i] == items;
  }

  /** `research_resources` given the outcome of its post: the unstripped
      content of the first choice goes through `_parse_json_array`. The
      content is a string as a rule; when it is a JSON list, the parser's
      `text.index("[")` is the list's own `index`, which raises ValueError
      (caught: the sentinel) unless the list holds the string "[", and then
      the missing `rindex` raises AttributeError, which is not caught. */
  function ResearchResources(posted: Result<Value, ClientFailure>, parse: string -> Option<Value>)
    : (r: Result<seq<Resource>, ClientFailure>)
    ensures posted.Failure? ==> r == Failure(posted.error)
    ensures r.Success? && r.value == [] ==> CompletionContent(posted).Some?
  {
    match posted
    case Failure(e) => Failure(e)
    case Success(data) =>
      match FirstChoice(data)
      case None => Failure(OtherFailure(MalformedReply))
      case Some(choice) =>
        match MessageContent(choice)
        case Some(Str(content)) => Success(ParseJsonArrayOf(content, parse))
        case Some(Array(xs)) => if OpenBracketItem in xs then Failure(OtherFailure(MalformedReply)) else Success([Sentinel])
        case _ => Failure(OtherFailure(MalformedReply))
  }

  /** The JSON string "[" as a list element. */
  const OpenBracketItem := Str("[")

  /** The content value of the first choice of a successful post. */
  function ReplyContent(posted: Result<Value, ClientFailure>): Option<Value> {
    match posted
    case Failure(_) => None
    case Success(data) =>
      match FirstChoice(data)
      case None => None
      case Some(choice) => MessageContent(choice)
  }

  /** When `research_resources` returns and what: a failed post is passed
      on; a string content is parsed; a list content without the string
      "[" gives the sentinel; anything else raises. */
  lemma ResearchResourcesOutcomes(posted: Result<Value, ClientFailure>, parse: string -> Option<Value>)
    ensures posted.Failure? ==> ResearchResources(posted, parse) == Failure(posted.error)
    ensures ResearchResources(posted, parse).Success? <==>
              ReplyContent(posted).Some?
              && (ReplyContent(posted).value.Str?
                  || (ReplyContent(posted).value.Array? && OpenBracketItem !in ReplyContent(posted).value.items))
    ensures ReplyContent(posted).Some? && ReplyContent(posted).value.Str? ==>
              ResearchResources(posted, parse) == Success(ParseJsonArrayOf(ReplyContent(posted).value.s, parse))
    ensures ReplyContent(posted).Some? && ReplyContent(posted).value.Array?
            && OpenBracketItem !in ReplyContent(posted).value.items ==>
              ResearchResources(posted, parse) == Success([Sentinel])
    ensures posted.Success? && ResearchResources(posted, parse).Failure? ==>
              ResearchResources(posted, parse).error == OtherFailure(MalformedReply)
  {
  }

  /** A reply that reaches `_parse_json_array` always yields at least one
      item unless the model's text decodes to a list without objects. */
  lemma ResearchResourcesEmpty(posted: Result<Value, ClientFailure>, parse: string -> Option<Value>)
    requires ResearchResources(posted, parse).Success?
    requires ResearchResources(posted, parse).value == []
    ensures exists content ::
              && CompletionContent(posted) == Some(content)
              && ArraySlice(content).Some?
              && parse(ArraySlice(content).value).Some? && parse(ArraySlice(content).value).value.Array?
              && (forall k :: 0 <= k < |parse(ArraySlice(content).value).value.items| ==>
                    !parse(ArraySlice(content).value).value.items[k].Object?)
  {
    var content := CompletionContent(posted).value;
    var items := parse(ArraySlice(content).value).value.items;
    forall k | 0 <= k < |items|
      ensures !items[k].Object?
    {
      NormalizeItemsKeepsObject(items, k);
    }
  }

  /** The content string a successful post carries in its first choice. */
  function CompletionContent(posted: Result<Value, ClientFailure>): Option<string> {
    match posted
    case Failure(_) => None
    case Success(data) =>
      match FirstChoice(data)
      case None => None
      case Some(choice) =>
        match MessageContent(choice)
        case Some(Str(content)) => Some(content)
        case _ => None
  }
}
