/** Page retrieval and text extraction of backend/services/content_fetcher.py:
    URL normalisation, the ordered header/scheme attempts, and the filter,
    join and truncation of the extracted text blocks. */
module ContentFetcher {
  import opened Base
  import opened Strings
  import opened Url
  import opened Http

  const UserAgent := "Mozilla/5.0 (Macintosh; Intel Mac OS X 10_15_7) AppleWebKit/537.36 (KHTML, like Gecko) Chrome/118.0 Safari/537.36"
  const AltUserAgent := "Mozilla/5.0 (Windows NT 10.0; Win64; x64; rv:121.0) Gecko/20100101 Firefox/121.0"

  /** The two header sets the attempts use: `BASE_HEADERS` and
      `FALLBACK_HEADERS`. */
  datatype HeaderSet = Primary | Fallback

  /** The headers each set sends: the fallback set is the base set with
      another browser's user agent and a referer. */
  function Headers(which: HeaderSet): map<string, string> {
    var base := map[
      "User-Agent" := UserAgent,
      "Accept" := "text/html,application/xhtml+xml,application/xml;q=0.9,image/avif,image/webp,*/*;q=0.8",
      "Accept-Language" := "ko-KR,ko;q=0.9,en-US;q=0.8,en;q=0.7",
      "Cache-Control" := "no-cache",
      "Pragma" := "no-cache"];
    match which
    case Primary => base
    case Fallback => base["User-Agent" := AltUserAgent]["Referer" := "https://www.google.com/"]
  }

  const EmptyUrlMessage := "URL이 비어 있습니다."
  const FetchFailedPrefix := "웹 페이지를 불러오지 못했습니다: "
  const UnknownFailure := "알 수 없는 오류"
  const SecureScheme := "https://"
  const PlainScheme := "http://"
  const MinBlockLength := 40
  const MaxTextLength := 5000

  // ------------------------------------------------------- normalize_url

  /** `normalize_url`: the stripped input, prefixed with "https://" when
      `urlparse` finds no scheme in it; ValueError when nothing is left
      after stripping, and the ValueError `urlparse` raises for unbalanced
      brackets. */
  function NormalizeUrl(raw: string): (r: Result<string, Error>)
    ensures r.Failure? ==> r.error.ValueError?
  {
    var stripped := Strip(raw);
    if stripped == "" then Failure(ValueError(EmptyUrlMessage))
    else
      match UrlParse(stripped)
      case Failure(e) => Failure(e)
      case Success(parsed) =>
        if parsed.scheme == "" then Success(SecureScheme + stripped) else Success(stripped)
  }

  lemma SecureSchemeParsed(rest: string)
    ensures Scheme(SecureScheme + rest) == "https"
  {
    SecureSchemeParsedFor("https", rest);
  }

  lemma SecureSchemeParsedFor(scheme: string, rest: string)
    requires scheme == "https"
    ensures Scheme(SecureScheme + rest) == scheme
  {
    assert SecureScheme + rest == scheme + ":" + ("//" + rest);
    assert forall k :: 0 <= k < |scheme| ==> IsSchemeChar(scheme[k]);
    SchemeOfPrefixed(scheme, "//" + rest);
    LowerFixed(scheme);
  }

  /** A stripped, non-empty URL without a scheme gets "https://" in front,
      which gives it a scheme and leaves it stripped. */
  lemma SecureSchemeAdded(stripped: string)
    requires stripped != [] && !IsSpace(stripped[0]) && !IsSpace(stripped[|stripped| - 1])
    ensures var url := SecureScheme + stripped;
      Scheme(url) != "" && Strip(url) == url && EndsWith(url, stripped)
  {
    SecureSchemeParsed(stripped);
    var url := SecureScheme + stripped;
    assert url[0] == 'h';
    assert url[|url| - 1] == stripped[|stripped| - 1];
    StripUnchanged(url);
    assert url[|url| - |stripped|..] == stripped;
  }

  /** What `normalize_url` promises: it fails on blank input and on input
      `urlparse` rejects, and otherwise returns a stripped URL that has a
      scheme and ends with the stripped input, which is returned unchanged
      when it had a scheme. */
  lemma NormalizeUrlProperties(raw: string)
    ensures NormalizeUrl(raw).Failure? <==> Strip(raw) == "" || UrlParse(Strip(raw)).Failure?
    ensures Strip(raw) == "" ==> NormalizeUrl(raw) == Failure(ValueError(EmptyUrlMessage))
    ensures Strip(raw) != "" && UrlParse(Strip(raw)).Failure? ==>
              NormalizeUrl(raw) == Failure(ValueError(InvalidIpv6Message))
    ensures NormalizeUrl(raw).Success? ==>
      var url := NormalizeUrl(raw).value;
      Scheme(url) != "" && Strip(url) == url && EndsWith(url, Strip(raw))
      && (Scheme(Strip(raw)) != "" ==> url == Strip(raw))
      && (Scheme(Strip(raw)) == "" ==> url == SecureScheme + Strip(raw))
  {
    var stripped := Strip(raw);
    StripEnds(raw);
    if stripped != "" && UrlParse(stripped).Success? {
      if Scheme(stripped) == "" {
        SecureSchemeAdded(stripped);
      } else {
        StripUnchanged(stripped);
        assert stripped[|stripped| - |stripped|..] == stripped;
      }
    }
  }

  /** Normalising a normalised URL returns it unchanged, as long as
      `urlparse` accepts the normalised URL. */
  lemma NormalizeUrlIdempotent(raw: string)
    requires NormalizeUrl(raw).Success?
    requires UrlParse(NormalizeUrl(raw).value).Success?
    ensures NormalizeUrl(NormalizeUrl(raw).value) == NormalizeUrl(raw)
  {
    NormalizeUrlProperties(raw);
  }

  /** Without the proviso normalisation is not idempotent: "[::1" has no
      scheme and no netloc, so it becomes "https://[::1", whose netloc
      "[::1" `urlparse` then rejects. */
  lemma NormalizeUrlNotIdempotent(netloc: string)
    requires |netloc| >= 2 && netloc[0] == '[' && !IsSpace(netloc[|netloc| - 1])
    requires forall k :: 0 <= k < |netloc| ==>
               netloc[k] != ']' && netloc[k] != '/' && netloc[k] != '?' && netloc[k] != '#' && !IsUnsafe(netloc[k])
    ensures NormalizeUrl(netloc) == Success(SecureScheme + netloc)
    ensures NormalizeUrl(SecureScheme + netloc) == Failure(ValueError(InvalidIpv6Message))
  {
    StripUnchanged(netloc);
    NoSchemeNoNetloc(netloc);
    SecureSchemeAdded(netloc);
    SecureBracketRejected("https", netloc);
  }

  lemma SecureBracketRejected(scheme: string, netloc: string)
    requires scheme == "https"
    requires netloc != [] && netloc[0] == '['
    requires forall k :: 0 <= k < |netloc| ==>
               netloc[k] != ']' && netloc[k] != '/' && netloc[k] != '?' && netloc[k] != '#' && !IsUnsafe(netloc[k])
    ensures UrlParse(SecureScheme + netloc) == Failure(ValueError(InvalidIpv6Message))
  {
    assert SecureScheme + netloc == scheme + "://" + netloc;
    assert forall k :: 0 <= k < |scheme| ==> IsSchemeChar(scheme[k]);
    UnclosedBracketRejected(scheme, netloc);
  }

  // ------------------------------------------------------------ attempts

  /** One `requests.get` call: the URL and the header set. */
  datatype Attempt = Attempt(url: string, headers: HeaderSet)

  /** What one `requests.get` call does: a response (status code, reason
      phrase, final URL after redirects, decoded body) or a raised
      RequestException (with its text). */
  datatype Response =
    | Status(code: int, reason: string, finalUrl: string, body: string)
    | Raised(message: string)

  /** The attempt list `fetch_webpage` builds. */
  function AttemptPlan(normalized: string): (r: seq<Attempt>)
    ensures 2 <= |r| <= 3 && r[0].headers == Primary && r[|r| - 1].headers == Fallback
  {
    [Attempt(normalized, Primary)]
    + (if StartsWith(normalized, SecureScheme)
       then [Attempt(ReplaceFirst(normalized, SecureScheme, PlainScheme), Primary)]
       else [])
    + [Attempt(normalized, Fallback)]
  }

  /** The attempt list: three entries for an https URL (the middle one the
      same URL over http), two otherwise; base headers first, fallback
      headers last. */
  lemma AttemptPlanShape(normalized: string)
    ensures |AttemptPlan(normalized)| == if StartsWith(normalized, SecureScheme) then 3 else 2
    ensures AttemptPlan(normalized)[0] == Attempt(normalized, Primary)
    ensures AttemptPlan(normalized)[|AttemptPlan(normalized)| - 1] == Attempt(normalized, Fallback)
    ensures StartsWith(normalized, SecureScheme) ==>
      AttemptPlan(normalized)[1] == Attempt(PlainScheme + normalized[|SecureScheme|..], Primary)
  {
    if StartsWith(normalized, SecureScheme) {
      ReplaceFirstAtStart(normalized, SecureScheme, PlainScheme);
    }
  }

  /** How the loop body treats one response. */
  datatype Outcome = Accepted | Blocked | Rejected(message: string)

  /** One pass of the loop body: 5xx and then other 4xx raise HTTPError
      (a RequestException), 403 moves on without an error, and anything
      `raise_for_status` lets through ends the loop. */
  function Classify(response: Response): (r: Outcome)
    ensures response.Raised? ==> r == Rejected(response.message)
    ensures r == Accepted ==> response.Status? && response.code != 403
  {
    match response
    case Raised(m) => Rejected(m)
    case Status(code, reason, finalUrl, _) =>
      if code >= 500 && RaisesForStatus(code) then Rejected(StatusErrorText(code, reason, finalUrl))
      else if code == 403 then Blocked
      else if RaisesForStatus(code) then Rejected(StatusErrorText(code, reason, finalUrl))
      else Accepted
  }

  /** A response is used exactly when it is a status below 400 or at least
      600 (the codes `raise_for_status` accepts); only 403 is skipped
      silently. */
  lemma ClassifyMeaning(response: Response)
    ensures Classify(response) == Accepted <==> response.Status? && !(400 <= response.code < 600)
    ensures Classify(response) == Blocked <==> response.Status? && response.code == 403
    ensures Classify(response).Rejected? && response.Status? ==>
      Classify(response).message == StatusErrorText(response.code, response.reason, response.finalUrl)
  {
  }

  /** Where the attempt loop ends: at the first accepted response, or after
      the last attempt with the last exception text seen, if any. */
  datatype LoopEnd = Served(index: nat, response: Response) | Exhausted(lastError: Option<string>)

  function RunFrom(attempts: seq<Attempt>, net: Attempt -> Response, i: nat, last: Option<string>): (r: LoopEnd)
    requires i <= |attempts|
    ensures r.Served? ==>
      i <= r.index < |attempts| && r.response == net(attempts[r.index])
      && Classify(r.response) == Accepted && r.response.Status?
    decreases |attempts| - i
  {
    if i == |attempts| then Exhausted(last)
    else
      match Classify(net(attempts[i]))
      case Accepted => Served(i, net(attempts[i]))
      case Blocked => RunFrom(attempts, net, i + 1, last)
      case Rejected(m) => RunFrom(attempts, net, i + 1, Some(m))
  }

  /** The attempts run strictly in order: the loop serves attempt `k` only
      when every earlier attempt was not accepted. */
  lemma {:induction false} RunFromFirstAccepted(attempts: seq<Attempt>, net: Attempt -> Response, i: nat, last: Option<string>)
    requires i <= |attempts|
    ensures RunFrom(attempts, net, i, last).Served? ==>
      forall j :: i <= j < RunFrom(attempts, net, i, last).index ==> Classify(net(attempts[j])) != Accepted
    ensures RunFrom(attempts, net, i, last).Exhausted? <==>
      forall j :: i <= j < |attempts| ==> Classify(net(attempts[j])) != Accepted
    decreases |attempts| - i
  {
    if i < |attempts| {
      if Classify(net(attempts[i])).Rejected? {
        RunFromFirstAccepted(attempts, net, i + 1, Some(Classify(net(attempts[i])).message));
      } else if Classify(net(attempts[i])).Blocked? {
        RunFromFirstAccepted(attempts, net, i + 1, last);
      }
    }
  }

  /** A 403 does not touch the recorded error: when the remaining attempts
      are all 403 the error recorded before them is what is reported. */
  lemma {:induction false} RunFromAllBlocked(attempts: seq<Attempt>, net: Attempt -> Response, i: nat, last: Option<string>)
    requires i <= |attempts|
    requires forall j :: i <= j < |attempts| ==> Classify(net(attempts[j])) == Blocked
    ensures RunFrom(attempts, net, i, last) == Exhausted(last)
    decreases |attempts| - i
  {
    if i < |attempts| {
      RunFromAllBlocked(attempts, net, i + 1, last);
    }
  }

  /** When the last rejected attempt is `k` and every later one is a 403,
      the reported error is the one raised by attempt `k`. */
  lemma {:induction false} RunFromLastRejection(attempts: seq<Attempt>, net: Attempt -> Response, i: nat, last: Option<string>, k: nat)
    requires i <= k < |attempts|
    requires forall j :: i <= j < |attempts| ==> Classify(net(attempts[j])) != Accepted
    requires Classify(net(attempts[k])).Rejected?
    requires forall j :: k < j < |attempts| ==> Classify(net(attempts[j])) == Blocked
    ensures RunFrom(attempts, net, i, last) == Exhausted(Some(Classify(net(attempts[k])).message))
    decreases |attempts| - i
  {
    if i == k {
      RunFromAllBlocked(attempts, net, k + 1, Some(Classify(net(attempts[k])).message));
    } else if Classify(net(attempts[i])).Rejected? {
      RunFromLastRejection(attempts, net, i + 1, Some(Classify(net(attempts[i])).message), k);
    } else {
      RunFromLastRejection(attempts, net, i + 1, last, k);
    }
  }

  // ------------------------------------------------------ text extraction

  /** `re.sub(r"\s+", " ", s)`: every maximal run of whitespace becomes one space. */
  function SquashRuns(s: string): string
    decreases |s|
  {
    if s == [] then []
    else if IsSpace(s[0]) then
      var rest := TrimLeft(s);
      " " + SquashRuns(rest)
    else [s[0]] + SquashRuns(s[1..])
  }

  /** `collapse_spaces`. */
  function CollapseSpaces(text: string): (r: string)
    ensures Strip(r) == r
  {
    StripIdempotent(SquashRuns(text));
    Strip(SquashRuns(text))
  }

  predicate NoDoubleSpace(s: string) {
    forall i :: 0 <= i < |s| - 1 ==> !(IsSpace(s[i]) && IsSpace(s[i + 1]))
  }

  predicate OnlyPlainSpaces(s: string) {
    forall i :: 0 <= i < |s| ==> IsSpace(s[i]) ==> s[i] == ' '
  }

  /** The non-whitespace characters of `s`, in order. */
  function Visible(s: string): (r: string)
    ensures |r| <= |s|
  {
    if s == [] then [] else (if IsSpace(s[0]) then [] else [s[0]]) + Visible(s[1..])
  }

  lemma {:induction false} VisibleConcat(a: string, b: string)
    ensures Visible(a + b) == Visible(a) + Visible(b)
  {
    if a == [] {
      assert a + b == b;
    } else {
      assert (a + b)[0] == a[0];
      assert (a + b)[1..] == a[1..] + b;
      VisibleConcat(a[1..], b);
    }
  }

  lemma {:induction false} VisibleOfSpaces(s: string)
    requires forall i :: 0 <= i < |s| ==> IsSpace(s[i])
    ensures Visible(s) == []
  {
    if s != [] {
      VisibleOfSpaces(s[1..]);
    }
  }

  lemma {:induction false} SquashRunsSpacing(s: string)
    ensures NoDoubleSpace(SquashRuns(s)) && OnlyPlainSpaces(SquashRuns(s))
    ensures SquashRuns(s) != [] ==> (IsSpace(SquashRuns(s)[0]) <==> IsSpace(s[0]))
    decreases |s|
  {
    if s != [] {
      if IsSpace(s[0]) {
        var rest := TrimLeft(s);
        TrimLeftProperties(s);
        SquashRunsSpacing(rest);
        var r := " " + SquashRuns(rest);
        assert NoDoubleSpace(r);
      } else {
        SquashRunsSpacing(s[1..]);
        var r := [s[0]] + SquashRuns(s[1..]);
        assert NoDoubleSpace(r);
      }
    }
  }

  lemma {:induction false} SquashRunsVisible(s: string)
    ensures Visible(SquashRuns(s)) == Visible(s)
    decreases |s|
  {
    if s != [] {
      if IsSpace(s[0]) {
        var rest := TrimLeft(s);
        TrimLeftProperties(s);
        SquashRunsVisible(rest);
        var cut := |s| - |rest|;
        assert s == s[..cut] + rest;
        VisibleOfSpaces(s[..cut]);
        VisibleConcat(s[..cut], rest);
        VisibleConcat(" ", SquashRuns(rest));
      } else {
        SquashRunsVisible(s[1..]);
        assert s == [s[0]] + s[1..];
        VisibleConcat([s[0]], s[1..]);
        VisibleConcat([s[0]], SquashRuns(s[1..]));
      }
    }
  }

  lemma {:induction false} SquashRunsFixed(s: string)
    requires NoDoubleSpace(s) && OnlyPlainSpaces(s)
    ensures SquashRuns(s) == s
    decreases |s|
  {
    if s != [] {
      assert NoDoubleSpace(s[1..]) && OnlyPlainSpaces(s[1..]);
      SquashRunsFixed(s[1..]);
      if IsSpace(s[0]) {
        assert TrimLeft(s) == TrimLeft(s[1..]);
        assert s[1..] == [] || !IsSpace(s[1..][0]);
        assert TrimLeft(s[1..]) == s[1..];
        assert s == " " + s[1..];
      } else {
        assert s == [s[0]] + s[1..];
      }
    }
  }

  lemma {:induction false} VisibleOfTrimLeft(s: string)
    ensures Visible(TrimLeft(s)) == Visible(s)
  {
    if s != [] && IsSpace(s[0]) {
      VisibleOfTrimLeft(s[1..]);
    }
  }

  lemma {:induction false} VisibleOfTrimRight(s: string)
    ensures Visible(TrimRight(s)) == Visible(s)
  {
    if s != [] && IsSpace(s[|s| - 1]) {
      var init := s[..|s| - 1];
      VisibleOfTrimRight(init);
      assert s == init + [s[|s| - 1]];
      VisibleConcat(init, [s[|s| - 1]]);
    }
  }

  lemma VisibleOfStrip(s: string)
    ensures Visible(Strip(s)) == Visible(s)
  {
    VisibleOfTrimLeft(s);
    VisibleOfTrimRight(TrimLeft(s));
  }

  lemma SliceKeepsSpacing(s: string, lo: nat, hi: nat)
    requires lo <= hi <= |s|
    requires NoDoubleSpace(s) && OnlyPlainSpaces(s)
    ensures NoDoubleSpace(s[lo..hi]) && OnlyPlainSpaces(s[lo..hi])
  {
    var t := s[lo..hi];
    assert forall i :: 0 <= i < |t| ==> t[i] == s[lo + i];
  }

  lemma StripKeepsSpacing(s: string)
    requires NoDoubleSpace(s) && OnlyPlainSpaces(s)
    ensures NoDoubleSpace(Strip(s)) && OnlyPlainSpaces(Strip(s))
  {
    StripSlice(s);
    var lo := |s| - |TrimLeft(s)|;
    SliceKeepsSpacing(s, lo, lo + |Strip(s)|);
  }

  lemma CollapseSpacesShape(text: string)
    ensures NoDoubleSpace(CollapseSpaces(text)) && OnlyPlainSpaces(CollapseSpaces(text))
  {
    SquashRunsSpacing(text);
    StripKeepsSpacing(SquashRuns(text));
  }

  lemma CollapseSpacesIdempotent(text: string)
    ensures CollapseSpaces(CollapseSpaces(text)) == CollapseSpaces(text)
  {
    CollapseSpacesShape(text);
    SquashRunsFixed(CollapseSpaces(text));
    StripIdempotent(SquashRuns(text));
  }

  lemma CollapseSpacesKeepsText(text: string)
    ensures Visible(CollapseSpaces(text)) == Visible(text)
  {
    SquashRunsVisible(text);
    VisibleOfStrip(SquashRuns(text));
  }

  /** `collapse_spaces` output has no whitespace at either end, no two
      whitespace characters in a row and no whitespace but ' '; it keeps
      every other character in order, and applying it twice equals applying
      it once. */
  lemma CollapseSpacesProperties(text: string)
    ensures var r := CollapseSpaces(text);
      (r == [] || (!IsSpace(r[0]) && !IsSpace(r[|r| - 1])))
      && NoDoubleSpace(r) && OnlyPlainSpaces(r)
      && Visible(r) == Visible(text)
      && CollapseSpaces(r) == r
  {
    StripEnds(SquashRuns(text));
    CollapseSpacesShape(text);
    CollapseSpacesIdempotent(text);
    CollapseSpacesKeepsText(text);
  }

  /** What the parser yields for one page: the stripped text of the
      `<title>` element if there is one, and the text of every p, h1, h2
      and h3 element left after the script, style, noscript, iframe, form,
      footer and nav elements are removed, in document order. */
  datatype Document = Document(title: Option<string>, blocks: seq<string>)

  /** `paragraphs`: every block with its whitespace collapsed. */
  function Paragraphs(blocks: seq<string>): (r: seq<string>)
    ensures |r| == |blocks|
    ensures forall i :: 0 <= i < |blocks| ==> r[i] == CollapseSpaces(blocks[i])
  {
    seq(|blocks|, i requires 0 <= i < |blocks| => CollapseSpaces(blocks[i]))
  }

  /** The paragraphs longer than 40 characters, in order. */
  function LongBlocks(paragraphs: seq<string>): (r: seq<string>)
    ensures |r| <= |paragraphs|
    ensures forall k :: 0 <= k < |r| ==> |r[k]| > MinBlockLength
  {
    if paragraphs == [] then []
    else (if |paragraphs[0]| > MinBlockLength then [paragraphs[0]] else []) + LongBlocks(paragraphs[1..])
  }

  /** The filter works paragraph by paragraph ... */
  lemma {:induction false} LongBlocksConcat(a: seq<string>, b: seq<string>)
    ensures LongBlocks(a + b) == LongBlocks(a) + LongBlocks(b)
  {
    if a == [] {
      assert a + b == b;
    } else {
      assert (a + b)[0] == a[0];
      assert (a + b)[1..] == a[1..] + b;
      LongBlocksConcat(a[1..], b);
    }
  }

  /** ... and keeps a paragraph exactly when it is longer than 40
      characters, so one of exactly 40 is dropped. */
  lemma LongBlocksSingle(paragraph: string)
    ensures LongBlocks([paragraph]) == if |paragraph| > MinBlockLength then [paragraph] else []
  {
    assert [paragraph][1..] == [];
  }

  /** The page text: the kept blocks joined by newlines, cut to 5000 characters. */
  function BodyText(blocks: seq<string>): (r: string)
    ensures |r| <= MaxTextLength
  {
    var joined := Join("\n", LongBlocks(Paragraphs(blocks)));
    joined[..Min(|joined|, MaxTextLength)]
  }

  /** The text is never longer than 5000 characters, is a prefix of the
      full join, and is the full join whenever that fits. */
  lemma BodyTextProperties(blocks: seq<string>)
    ensures |BodyText(blocks)| <= MaxTextLength
    ensures BodyText(blocks) == Join("\n", LongBlocks(Paragraphs(blocks)))[..|BodyText(blocks)|]
    ensures |Join("\n", LongBlocks(Paragraphs(blocks)))| <= MaxTextLength ==>
      BodyText(blocks) == Join("\n", LongBlocks(Paragraphs(blocks)))
  {
  }

  /** What `fetch_webpage` returns: title, text, final URL and raw HTML. */
  datatype WebPage = WebPage(title: string, text: string, finalUrl: string, html: string)

  function FailureDetail(last: Option<string>): string {
    match last
    case Some(m) => m
    case None => UnknownFailure
  }

  /** The specification of `fetch_webpage`. */
  function FetchSpec(url: string, net: Attempt -> Response, parse: string -> Document): (r: Result<WebPage, Error>)
    ensures r.Success? ==> |r.value.text| <= MaxTextLength
  {
    match NormalizeUrl(url)
    case Failure(e) => Failure(e)
    case Success(normalized) => FetchNormalized(url, normalized, net, parse)
  }

  /** `fetch_webpage` once the URL is normalised: the attempts are tried in
      order and the outcome concluded. */
  function FetchNormalized(url: string, normalized: string, net: Attempt -> Response, parse: string -> Document)
    : Result<WebPage, Error>
  {
    Conclude(url, RunFrom(AttemptPlan(normalized), net, 0, None), parse)
  }

  /** The part of `fetch_webpage` after the attempt loop. */
  function Conclude(url: string, end: LoopEnd, parse: string -> Document): Result<WebPage, Error>
    requires end.Served? ==> end.response.Status?
  {
    match end
    case Exhausted(last) => Failure(ValueError(FetchFailedPrefix + FailureDetail(last)))
    case Served(_, response) =>
      var doc := parse(response.body);
      var title := match doc.title case Some(t) => t case None => url;
      Success(WebPage(title, BodyText(doc.blocks), response.finalUrl, response.body))
  }

  /** The attempt loop of `fetch_webpage`: `response` is the accepted
      response, if any, and `lastExc` the text of the last exception seen. */
  method TryAttempts(attempts: seq<Attempt>, net: Attempt -> Response)
    returns (response: Option<Response>, lastExc: Option<string>)
    ensures response.Some? ==> RunFrom(attempts, net, 0, None).Served? && RunFrom(attempts, net, 0, None).response == response.value
    ensures response.None? ==> RunFrom(attempts, net, 0, None) == Exhausted(lastExc)
  {
    lastExc := None;
    response := None;
    var i := 0;
    while i < |attempts|
      invariant 0 <= i <= |attempts|
      invariant response == None
      invariant RunFrom(attempts, net, i, lastExc) == RunFrom(attempts, net, 0, None)
    {
      var reply := net(attempts[i]);
      if reply.Raised? {
        lastExc := Some(reply.message);
        i := i + 1;
        continue;
      }
      if reply.code >= 500 && RaisesForStatus(reply.code) {
        lastExc := Some(StatusErrorText(reply.code, reply.reason, reply.finalUrl));
        i := i + 1;
        continue;
      }
      if reply.code == 403 {
        i := i + 1;
        continue;
      }
      if RaisesForStatus(reply.code) {
        lastExc := Some(StatusErrorText(reply.code, reply.reason, reply.finalUrl));
        i := i + 1;
        continue;
      }
      response := Some(reply);
      return;
    }
  }

  /** `fetch_webpage`: the URL is normalised, then the attempts are built
      and tried in order; the first accepted response is parsed. */
  method FetchWebpage(url: string, net: Attempt -> Response, parse: string -> Document)
    returns (r: Result<WebPage, Error>)
    ensures r == FetchSpec(url, net, parse)
  {
    var normalizedOrError := NormalizeUrl(url);
    if normalizedOrError.Failure? {
      return Failure(normalizedOrError.error);
    }
    r := FetchAttempts(url, normalizedOrError.value, net, parse);
  }

  /** The body of `fetch_webpage` after normalisation. */
  method FetchAttempts(url: string, normalized: string, net: Attempt -> Response, parse: string -> Document)
    returns (r: Result<WebPage, Error>)
    ensures r == FetchNormalized(url, normalized, net, parse)
  {
    var attempts := [Attempt(normalized, Primary)];
    if StartsWith(normalized, SecureScheme) {
      attempts := attempts + [Attempt(ReplaceFirst(normalized, SecureScheme, PlainScheme), Primary)];
    }
    attempts := attempts + [Attempt(normalized, Fallback)];
    assert attempts == AttemptPlan(normalized);

    var response, lastExc := TryAttempts(attempts, net);
    if response.None? {
      return Failure(ValueError(FetchFailedPrefix + FailureDetail(lastExc)));
    }
    var page := response.value;
    var html := page.body;
    var doc := parse(html);
    var title := if doc.title.Some? then doc.title.value else url;
    return Success(WebPage(title, BodyText(doc.blocks), page.finalUrl, html));
  }

  /** Every failure of `fetch_webpage` is a ValueError: the request
      exceptions of the attempts are caught inside the loop. */
  lemma FetchErrorsAreValueErrors(url: string, net: Attempt -> Response, parse: string -> Document)
    ensures FetchSpec(url, net, parse).Failure? ==> FetchSpec(url, net, parse).error.ValueError?
  {
    if NormalizeUrl(url).Success? {
      var end := RunFrom(AttemptPlan(NormalizeUrl(url).value), net, 0, None);
      assert FetchSpec(url, net, parse) == Conclude(url, end, parse);
    }
  }

  /** When every attempt was a 403, the ValueError carries the
      unknown-error text. */
  lemma FetchAllForbidden(url: string, net: Attempt -> Response, parse: string -> Document)
    requires NormalizeUrl(url).Success?
    requires forall a :: a in AttemptPlan(NormalizeUrl(url).value) ==> Classify(net(a)) == Blocked
    ensures FetchSpec(url, net, parse) == Failure(ValueError(FetchFailedPrefix + UnknownFailure))
  {
    var attempts := AttemptPlan(NormalizeUrl(url).value);
    assert forall j :: 0 <= j < |attempts| ==> attempts[j] in attempts;
    RunFromAllBlocked(attempts, net, 0, None);
  }

  /** When no attempt was accepted, the ValueError carries the text of the
      last exception raised: attempt `k`, followed only by 403s. */
  lemma FetchLastRejection(url: string, net: Attempt -> Response, parse: string -> Document, k: nat)
    requires NormalizeUrl(url).Success?
    requires k < |AttemptPlan(NormalizeUrl(url).value)|
    requires var attempts := AttemptPlan(NormalizeUrl(url).value);
      && (forall j :: 0 <= j < |attempts| ==> Classify(net(attempts[j])) != Accepted)
      && Classify(net(attempts[k])).Rejected?
      && (forall j :: k < j < |attempts| ==> Classify(net(attempts[j])) == Blocked)
    ensures FetchSpec(url, net, parse)
            == Failure(ValueError(FetchFailedPrefix + Classify(net(AttemptPlan(NormalizeUrl(url).value)[k])).message))
  {
    RunFromLastRejection(AttemptPlan(NormalizeUrl(url).value), net, 0, None, k);
  }

  /** A successful fetch used the first accepted attempt, made at most
      three requests, and kept the title (or the caller's own URL when the
      page has none), the response's final URL and its body. */
  lemma FetchSuccess(url: string, net: Attempt -> Response, parse: string -> Document)
    requires FetchSpec(url, net, parse).Success?
    ensures var normalized := NormalizeUrl(url).value;
      var attempts := AttemptPlan(normalized);
      var end := RunFrom(attempts, net, 0, None);
      var page := FetchSpec(url, net, parse).value;
      |attempts| <= 3 && end.Served? && end.response == net(attempts[end.index])
      && (forall j :: 0 <= j < end.index ==> Classify(net(attempts[j])) != Accepted)
      && page.finalUrl == end.response.finalUrl && page.html == end.response.body
      && page.title == (if parse(end.response.body).title.Some? then parse(end.response.body).title.value else url)
      && |page.text| <= MaxTextLength
  {
    var normalized := NormalizeUrl(url).value;
    AttemptPlanShape(normalized);
    RunFromFirstAccepted(AttemptPlan(normalized), net, 0, None);
    BodyTextProperties(parse(RunFrom(AttemptPlan(normalized), net, 0, None).response.body).blocks);
  }
}
