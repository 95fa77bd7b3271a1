# Summarizer backend, modelled in Dafny

This project models the Python backend of a small "summarizer" web service.
The backend does four things:

- It summarises a keyword from the encyclopedia. An ambiguous keyword is
  resolved by ranking the candidate titles against the keyword.
- It fetches a web page and summarises it with a chat-completion API. When
  that API fails, it falls back to a local summary.
- It collects study resources for a list of keywords. It asks the
  completion API first, then falls back to encyclopedia search, and last
  to a curated list.
- It scans a fetched page with four security heuristics.

The external services are parameters of the model, written as total
functions (oracles):

- the encyclopedia (`Encyclopedia.Oracle`: summary, search, URL quoting);
- the HTTP client of the page fetch (`Attempt -> Response`);
- the HTML parser (`string -> Document`);
- the completion API (its post outcome, `Result<Value, ClientFailure>`);
- the JSON decoder (`string -> Option<Value>`).

Python exceptions that escape a function become `Failure` values. `Base.Error`
distinguishes `ValueError`, `RequestException` (`RequestError`) and all other
exceptions (`OtherError`), since the web layer maps these to different
statuses. The encyclopedia oracle's own exceptions carry such an `Error`
too, so a `ValueError` raised inside the library is told apart.

The modules follow the source files:

- `Wiki`: `services/wiki_service.py`.
- `ContentFetcher`: `services/content_fetcher.py`.
- `Perplexity`: `services/perplexity_client.py`.
- `UrlService`: `services/url_service.py`.
- `Search`: `services/search_service.py`.
- `Security`: `utils/security.py`.
- `Api`: the request handling of `app.py`.
- Supporting modules: `Strings` (the Python `str` methods used), `Json`
  (decoded JSON values, truthiness, `dict.get`, `str()`), `Url` (the parts
  of `urlparse` used, and the ValueError it raises for unbalanced
  brackets), `Http` (`raise_for_status`) and `Encyclopedia` (the
  oracle).

Where the source updates state step by step, the model does too:

- the title loop of `force_summary`;
- the deduplication loop;
- the attempt loop of `fetch_webpage`;
- the item loop of `_parse_json_array`;
- the entry loop of `fallback_resources`;
- the security scanner, whose report is a class with a findings list that
  the checks append to.

Each such method is proved equal to a specification function, and the
properties are proved about those functions.

Some consequences of the code, each proved in the model:

- A completion answer that is not a JSON array becomes a one-item
  "sentinel" list. That list is non-empty, so `research_by_keywords` returns
  it and does not fall back to the encyclopedia (`Perplexity.ResearchResourcesEmpty`,
  `Search.ResearchByKeywordsTiers`).
- `summarize_url` catches every request exception of the completion API,
  and `fetch_webpage` turns its own into `ValueError`. So the 502 branch of
  the URL endpoint cannot be reached (`Api.SummarizeUrlViewOutcomes`).
- The endpoint strips and filters the keywords before the search service
  does. So the service's own "empty keywords" `ValueError` cannot be reached
  from the endpoint; a 400 after the keyword check can only come from a
  `ValueError` the encyclopedia library raised (`Api.ResourceSearchOutcomes`).
- `normalize_url` is not idempotent: "[::1" has no scheme and becomes
  "https://[::1", whose netloc `urlparse` rejects
  (`ContentFetcher.NormalizeUrlNotIdempotent`).
- A completion answer whose content is a JSON list rather than a string
  reaches the parser as a list; `list.index("[")` raises a caught
  `ValueError`, so the result is the sentinel (`Perplexity.ResearchResourcesOutcomes`).
- The IP-host check accepts any four groups of one to three digits, such as
  "999.999.999.999" (`Security.Ipv4LikeNoRangeCheck`).

## Model

| member | source | states |
|---|---|---|
| Wiki.NormalizeTitle | backend/services/wiki_service.py:90-91 | the result holds only alphanumeric, non-upper-case characters and is no longer than the title |
| Wiki.NormalizeTitleConcat | backend/services/wiki_service.py:90-91 | normalising works character by character: a concatenation normalises to the concatenation, and one character gives its lower-case form if alphanumeric, else nothing |
| Wiki.NormalizeTitleIdempotent | backend/services/wiki_service.py:90-91 | normalising twice equals normalising once |
| Wiki.FirstHint | backend/services/wiki_service.py:77-79 | returns the index of the first hint contained case-insensitively in the option; no earlier hint matches; None only if no hint matches |
| Wiki.FirstHintAt | backend/services/wiki_service.py:77-79 | the first matching hint is the one reported |
| Wiki.Score | backend/services/wiki_service.py:73-84 | the tier is at most 4; a hint index is given only in tier 1, and then it indexes the keyword's hint list |
| Wiki.ScoreTiers | backend/services/wiki_service.py:73-84 | (0,0) exactly for a normalised match; tier 1 exactly when the keyword has hints and one matches, with the first matching hint's index; otherwise tier 2 exactly when the normalised target is non-empty and contained in the normalised option; otherwise tier 3 exactly for the disambiguation suffix; tier 4 for everything else |
| Wiki.SortsBeforeTotal | backend/services/wiki_service.py:86 | the (tier, hint index, option) key order is total |
| Wiki.SortsBeforeAntisymmetric | backend/services/wiki_service.py:86 | the key order is antisymmetric, so ties never depend on the input order |
| Wiki.SortsBeforeTransitive | backend/services/wiki_service.py:86 | the key order is transitive |
| Wiki.SortByRankProperties | backend/services/wiki_service.py:86-87 | sorting gives a permutation of the options that is ordered by the key |
| Wiki.Prioritize | backend/services/wiki_service.py:67-87 | `_prioritize_options` returns a permutation of the options ordered by (tier, hint index, option); no options give [] |
| Wiki.RankedUnique | backend/services/wiki_service.py:86 | two key-ordered lists with the same elements are equal, so the sorted result is determined |
| Wiki.PrioritizeOrderIndependent | backend/services/wiki_service.py:67-87 | the ranking does not depend on the order in which the options arrive |
| Wiki.PrioritizeExactMatchFirst | backend/services/wiki_service.py:75-76 | options that normalise to the target precede all others, and one comes first whenever one exists |
| Wiki.PreferredHintExample | backend/services/wiki_service.py:8-10 | for "배", the fruit, ship and disambiguation options rank in hint order (0, 4, 5) whatever the input order, and the fruit page is picked |
| Wiki.PickBestCandidate | backend/services/wiki_service.py:62-64 | None exactly for no options; otherwise an option that sorts no later than every option |
| Wiki.DedupOptions | backend/services/wiki_service.py:94-103 | the loop returns `Dedup(options)` |
| Wiki.DedupProperties | backend/services/wiki_service.py:94-103 | no two kept options share a normalised title; the result is a subsequence of the input; every first occurrence is kept; deduplicating again changes nothing |
| Wiki.ForceSummary | backend/services/wiki_service.py:27-49 | the title loop returns `ForceSummaryOf`: the search outcome, then the titles tried in ranked order |
| Wiki.TryTitlesDecidedAt | backend/services/wiki_service.py:30-48 | when every earlier title was skipped (missing page, or a failed single nested attempt), the first title not skipped decides the outcome |
| Wiki.TryTitlesExhausted | backend/services/wiki_service.py:49 | when every title is skipped, the result is the not-found message with no link |
| Wiki.TryTitleLink | backend/services/wiki_service.py:31-41 | a link is returned only with the summary of the tried title, or of its best-ranked non-empty nested option; a skip happens only for a missing page or a disambiguation |
| Wiki.ExactTitleTriedFirst | backend/services/wiki_service.py:29-30 | a search title that normalises to the keyword is tried first |
| Wiki.SummarizeKeyword | backend/services/wiki_service.py:13-24 | a failure is the escaping search exception of `force_summary`, with its text |
| Wiki.SummarizeKeywordRaisesOnlyFromSearch | backend/services/wiki_service.py:13-24 | `summarize_keyword` raises exactly when the keyword is ambiguous and the search in `force_summary` raises |
| ContentFetcher.NormalizeUrl | backend/services/content_fetcher.py:35-42 | every failure of `normalize_url` is a ValueError |
| ContentFetcher.NormalizeUrlProperties | backend/services/content_fetcher.py:35-42 | fails exactly on blank input (the empty-URL ValueError) or on input `urlparse` rejects (its "Invalid IPv6 URL" ValueError); otherwise the result is stripped, has a scheme, ends with the stripped input, and equals it when it had a scheme |
| ContentFetcher.NormalizeUrlIdempotent | backend/services/content_fetcher.py:35-42 | normalising a normalised URL that `urlparse` accepts returns it unchanged |
| ContentFetcher.NormalizeUrlNotIdempotent | backend/services/content_fetcher.py:35-42 | a bracket-led input without ']' such as "[::1" normalises to "https://[::1", and normalising that fails with the "Invalid IPv6 URL" ValueError |
| ContentFetcher.AttemptPlan | backend/services/content_fetcher.py:48-55 | two or three attempts, base headers first and fallback headers last |
| ContentFetcher.AttemptPlanShape | backend/services/content_fetcher.py:48-55 | three attempts for an https URL, the middle one the same URL over http; two attempts otherwise; base headers first and fallback headers last |
| ContentFetcher.Classify | backend/services/content_fetcher.py:62-78 | a raised RequestException is recorded with its text; an accepted response is a status other than 403 |
| ContentFetcher.ClassifyMeaning | backend/services/content_fetcher.py:67-74 | a response is used exactly when its status is below 400 or at least 600; only 403 is skipped without recording an error |
| ContentFetcher.RunFrom | backend/services/content_fetcher.py:57-78 | the loop ends at an accepted status response of a later attempt, with the response that attempt got, or runs out |
| ContentFetcher.RunFromFirstAccepted | backend/services/content_fetcher.py:59-78 | attempts run in order, and attempt k is served only when every earlier one was not accepted |
| ContentFetcher.RunFromAllBlocked | backend/services/content_fetcher.py:69-72 | 403 responses leave the recorded error untouched |
| ContentFetcher.RunFromLastRejection | backend/services/content_fetcher.py:75-78 | the reported error is the one raised by the last attempt that raised |
| ContentFetcher.CollapseSpaces | backend/services/content_fetcher.py:98-99 | the result has no whitespace at its ends |
| ContentFetcher.CollapseSpacesProperties | backend/services/content_fetcher.py:98-99 | the output has no whitespace at its ends, no two whitespace characters in a row and no whitespace other than ' '; it keeps every other character in order; applying it twice equals applying it once |
| ContentFetcher.LongBlocksSingle | backend/services/content_fetcher.py:91 | a paragraph is kept exactly when it is longer than 40 characters |
| ContentFetcher.LongBlocksConcat | backend/services/content_fetcher.py:91 | the filter works paragraph by paragraph, in order |
| ContentFetcher.BodyText | backend/services/content_fetcher.py:90-92 | the extracted text is at most 5000 characters |
| ContentFetcher.BodyTextProperties | backend/services/content_fetcher.py:91-92 | the text is at most 5000 characters, is a prefix of the full join, and is the full join when that fits |
| ContentFetcher.TryAttempts | backend/services/content_fetcher.py:57-78 | the loop ends where `RunFrom` says: at the first accepted response, or with the last exception text |
| ContentFetcher.FetchSpec | backend/services/content_fetcher.py:45-95 | a fetched page's text is at most 5000 characters |
| ContentFetcher.FetchWebpage | backend/services/content_fetcher.py:45-95 | the method returns `FetchSpec(url)`: normalisation (which raises on blank input or a netloc with unbalanced brackets), then the attempts, then the conclusion |
| ContentFetcher.FetchAttempts | backend/services/content_fetcher.py:48-95 | the part after normalisation returns `FetchNormalized` |
| ContentFetcher.FetchErrorsAreValueErrors | backend/services/content_fetcher.py:75-82 | every failure of `fetch_webpage` is a ValueError |
| ContentFetcher.FetchAllForbidden | backend/services/content_fetcher.py:80-82 | when every attempt was a 403, the ValueError carries the unknown-error text |
| ContentFetcher.FetchLastRejection | backend/services/content_fetcher.py:74-82 | with no accepted attempt, the ValueError carries the text of the last exception raised |
| ContentFetcher.FetchSuccess | backend/services/content_fetcher.py:84-95 | a success came from the first accepted attempt after at most three requests; it keeps the page title (or the caller's URL), the final URL and the body |
| Perplexity.NewClient | backend/services/perplexity_client.py:17-23 | ValueError with the missing-key message exactly for an empty key; otherwise a new client holding the arguments |
| Perplexity.ExtractSummary | backend/services/perplexity_client.py:69-72 | a reply without the expected shape raises a non-request exception |
| Perplexity.ExtractSummaryOfReply | backend/services/perplexity_client.py:69-72 | from a well-formed reply, the summary is the stripped content; the citations are the reply's own when truthy and [] otherwise |
| Perplexity.ExtractSummaryShape | backend/services/perplexity_client.py:69-72 | whatever the reply, an extracted summary has no whitespace at its ends, and the citations are truthy or exactly [] |
| Perplexity.ArraySliceBounds | backend/services/perplexity_client.py:92-94 | the slice runs from the first '[' through the last ']' |
| Perplexity.NormalizeItemsConcat | backend/services/perplexity_client.py:97-107 | the items follow the array order: a concatenation gives the concatenation of the items |
| Perplexity.NormalizeItemsAllObjects | backend/services/perplexity_client.py:98-107 | when every element is an object, there is one item per element and each element contributes exactly the item at its own position |
| Perplexity.NormalizeItemsOfObjects | backend/services/perplexity_client.py:101-107 | an array of objects gives, position by position, the items whose title, summary and url are read with their defaults |
| Perplexity.NormalizeItemsKeepsObject | backend/services/perplexity_client.py:98-107 | an object anywhere in the array gives at least one item |
| Perplexity.NormalizeItemsNoObjects | backend/services/perplexity_client.py:99-100 | an array without objects gives no items |
| Perplexity.ParseJsonArrayOf | backend/services/perplexity_client.py:89-117 | an empty result comes only from a bracketed slice that decodes to a list |
| Perplexity.ParseJsonArray | backend/services/perplexity_client.py:89-117 | the loop returns `ParseJsonArrayOf(text)` |
| Perplexity.ParseJsonArrayCases | backend/services/perplexity_client.py:89-117 | a missing bracket, text that does not decode, or a non-list gives exactly the sentinel; a decoded list gives its items |
| Perplexity.ResearchResources | backend/services/perplexity_client.py:74-87 | a failed post is passed on unchanged; an empty result needs string content |
| Perplexity.ResearchResourcesOutcomes | backend/services/perplexity_client.py:85-117 | a string content goes through the parser; a list content gives the sentinel unless it holds the string "[", which raises; any other content raises a non-request exception |
| Perplexity.ResearchResourcesEmpty | backend/services/perplexity_client.py:85-87 | a reply that reaches the parser yields no items only when the text decodes to a list without objects |
| UrlService.SnippetLines | backend/services/url_service.py:40-41 | at most five lines, each non-empty, stripped and free of newlines |
| UrlService.LocalSummaryFallback | backend/services/url_service.py:39-48 | the local summary starts with the local-summary notice and ends with the snippet |
| UrlService.LocalSummaryFallbackShape | backend/services/url_service.py:39-48 | the snippet splits back into the first five non-blank stripped lines; it falls back to the first 500 characters only when there are none |
| UrlService.DescribeHttpError | backend/services/url_service.py:51-62 | without a response the reason is the API-error prefix followed by the exception text; with one it is "{code} {reason}: " followed by the detail |
| UrlService.DetailProperties | backend/services/url_service.py:51-62 | the detail is never empty: the decoded truthy "error" field, else the start of the body, else the fixed empty-body message |
| UrlService.SummarizePage | backend/services/url_service.py:12-36 | a success returns the payload's own summary, with the page's title and final URL |
| UrlService.SummarizeUrl | backend/services/url_service.py:11-36 | a success comes from a successful fetch and carries its final URL |
| UrlService.EmptyTextSkipsClient | backend/services/url_service.py:12-14 | empty page text is a ValueError, whatever the completion API would answer |
| UrlService.SummarizePageOutcomes | backend/services/url_service.py:11-36 | the payload's summary is the one returned; the fallback reason is present exactly when the fallback was used, which is exactly when the client failed; a fallback gives the local summary and no citations; HTTP and network errors give their reasons; only empty text or a non-request exception fails |
| UrlService.SummarizePageErrors | backend/services/url_service.py:12-36 | after the fetch, the only errors are the empty-text ValueError and non-request exceptions |
| UrlService.SummarizeUrlNeverRequestError | backend/services/url_service.py:11-36 | `summarize_url` never lets a RequestException escape |
| Search.AttachSource | backend/services/search_service.py:76-79 | title, summary and url are kept and a source is always present |
| Search.AttachSourceProperties | backend/services/search_service.py:76-79 | title, summary and url are kept; a truthy `via` is kept, otherwise it becomes the source; attaching twice equals attaching once |
| Search.SearchHangulMeaning | backend/services/search_service.py:11 | the regex search succeeds exactly when some character is Hangul |
| Search.LangMeaning | backend/services/search_service.py:49 | the language is "ko" exactly when the query holds a Hangul character, and "en" otherwise |
| Search.Entries | backend/services/search_service.py:52-65 | a successful walk has one entry per title |
| Search.EntriesShape | backend/services/search_service.py:52-65 | one entry per title, in order, each with its title and a link whose spaces became underscores |
| Search.EntriesFailureStops | backend/services/search_service.py:52-56 | an exception for one title ends the walk |
| Search.EntriesErrors | backend/services/search_service.py:53-58 | the only exception let through is one a summary call raised for one of the titles, unchanged |
| Search.EntryForDisambiguation | backend/services/search_service.py:55-56 | a disambiguation lists its first three options |
| Search.FallbackResources | backend/services/search_service.py:48-73 | the loop returns `FallbackResourcesOf` |
| Search.CuratedShape | backend/services/search_service.py:13-32 | the curated items keep their titles and urls, are tagged "curated", and carry the query after their summary |
| Search.FallbackResourcesShape | backend/services/search_service.py:48-73 | with search results: one item per result, at most `limit`, in search order, tagged "wikipedia"; with none: exactly the curated items with the query attached |
| Search.FallbackResourcesFailures | backend/services/search_service.py:52-58 | `fallback_resources` raises only what the search or a summary call of a found title raised, unchanged |
| Search.BuildQueryEmpty | backend/services/search_service.py:36-38 | the query is empty exactly when every keyword is blank |
| Search.ResearchByKeywords | backend/services/search_service.py:35-38 | blank keywords raise the empty-keywords ValueError |
| Search.ResearchByKeywordsTiers | backend/services/search_service.py:35-45 | blank keywords are a ValueError; a non-empty completion answer is returned in order, tagged "perplexity"; an exception or an empty answer gives exactly `fallback_resources` |
| Search.ResearchByKeywordsErrors | backend/services/search_service.py:35-45 | the service's own ValueError comes only from blank keywords; any other failure is an exception the encyclopedia raised during the fallback, unchanged |
| Url.UrlParse | backend/utils/security.py:55 | `urlparse` fails with the "Invalid IPv6 URL" ValueError exactly when the netloc holds one bracket without the other; otherwise it gives the scheme and the hostname |
| Url.RemoveUnsafeRemoves | backend/services/content_fetcher.py:39 | after cleaning, no tab, CR or LF is left |
| Url.CleanedIdempotent | backend/services/content_fetcher.py:39 | cleaning a cleaned URL changes nothing |
| Url.UrlParseOfCleaned | backend/services/content_fetcher.py:39 | the parse of a URL equals the parse of its cleaned form |
| Url.UnsafeIgnored | backend/services/content_fetcher.py:39 | a tab, CR or LF after the first character makes no difference to the parse, as in "ht\ttp://a.com" |
| Url.UnclosedBracketRejected | backend/services/content_fetcher.py:39 | "scheme://" followed by a netloc with '[' and no ']' is rejected with the "Invalid IPv6 URL" ValueError |
| Security.Score | backend/utils/security.py:33-36 | the risk score is zero exactly when there are no findings |
| Security.Weight | backend/utils/security.py:35-36 | each finding weighs between 1 and 5; a level is weighed by its label, so an unknown label weighs 1 |
| Security.ScoreBounds | backend/utils/security.py:33-36 | the risk score lies between 1 and 5 points per finding |
| Security.ScoreConcat | backend/utils/security.py:36 | the score of appended findings is the sum of the scores |
| Security.SecurityReport.RiskScore | backend/utils/security.py:33-36 | the report's score is between one and five times its number of findings |
| Security.Ipv4LikeJoin | backend/utils/security.py:77 | four groups of one to three digits joined by dots match the pattern |
| Security.Ipv4LikeParts | backend/utils/security.py:77 | a host matches exactly when it is four digit groups joined by dots |
| Security.Ipv4LikeNoRangeCheck | backend/utils/security.py:77 | "999.999.999.999" matches: there is no range check |
| Security.Ipv4LikeRejects | backend/utils/security.py:77 | a host with other than four groups, or with a group longer than three characters, does not match |
| Security.HitsMeaning | backend/utils/security.py:86 | a keyword is a hit exactly when the text contains it, and hits come only from the keyword list |
| Security.FlaggedEmpty | backend/utils/security.py:97-101 | nothing is flagged exactly when every count is under its threshold |
| Security.KeywordFindingsFire | backend/utils/security.py:84-92 | the keyword check adds a finding exactly when the lowered HTML contains a suspicious keyword |
| Security.TagFindingsFire | backend/utils/security.py:94-108 | the tag check adds a finding exactly when some tag reaches its threshold (80 for script, 5 for the others) |
| Security.ScanFindingsBounds | backend/utils/security.py:57-62 | one run adds at most four findings, each a warning or critical, worth at most 14 points |
| Security.SecurityScanner.constructor | backend/utils/security.py:50-55 | for a target `urlparse` accepts: a missing HTML becomes ""; the report is new and empty; the parsed URL is the final URL, or the original one when the final URL is empty, and `parsed` is its parse |
| Security.NewScanner | backend/utils/security.py:50-55 | construction fails with the "Invalid IPv6 URL" ValueError exactly when the parsed URL's netloc has unbalanced brackets; otherwise it gives a new scanner as above |
| Security.SecurityScanner.CheckScheme | backend/utils/security.py:67-73 | appends the insecure-protocol warning exactly when the scheme is not "https" |
| Security.SecurityScanner.CheckIpHostname | backend/utils/security.py:75-82 | appends the IP-host warning exactly when the hostname (or "") matches the pattern |
| Security.SecurityScanner.CheckKeywordPatterns | backend/utils/security.py:84-92 | appends one critical finding listing the hits in keyword order, when there are any |
| Security.SecurityScanner.CheckTagDensity | backend/utils/security.py:94-108 | appends one warning listing the flagged tags with their counts, when there are any |
| Security.SecurityScanner.RunAll | backend/utils/security.py:57-62 | returns the same report with the four checks' findings appended in order; earlier findings are kept; the score grows by the score of the new findings |
| Api.FieldOrEmpty | backend/app.py:81-82 | the value is truthy or ""; the view raises exactly when the body is a truthy non-object |
| Api.Tokens | backend/app.py:84-90 | every token is non-empty and stripped |
| Api.TokensOfString | backend/app.py:84-85 | tokens of a string contain no comma |
| Api.TokensRoundTrip | backend/app.py:84-90 | stripped, non-empty, comma-free keywords joined by commas come back as they were, in order and with duplicates (no keywords give no tokens) |
| Api.TokensOfList | backend/app.py:86-90 | a list of stripped non-empty strings is taken as it is, in order and with duplicates |
| Api.TokensEmpty | backend/app.py:84-90 | there are no tokens exactly when every piece is blank, or the value is neither a string nor a list |
| Api.QueryOfTokens | backend/app.py:90-97 | the search query built from the tokens is their plain ", " join |
| Api.ResourceSearch | backend/app.py:79-103 | the view raises exactly when the body is a truthy non-object |
| Api.ResourceSearchOutcomes | backend/app.py:91-103 | no tokens give 400 whether or not the client exists; with tokens, a missing client gives 500; with a client, the search results give 200, a ValueError gives 400 with its text and any other exception the generic 500; a 400 carries a ValueError the encyclopedia raised during the fallback, never the service's empty-keywords error; statuses are 200, 400 or 500 |
| Api.SummarizeUrlView | backend/app.py:40-59 | the view raises exactly when the body is a truthy non-object or its URL is not a string |
| Api.SummarizeUrlViewOutcomes | backend/app.py:43-59 | a blank URL gives 400 before the client check; a missing client gives 500; a success gives the payload, a ValueError gives 400 with its message and any other exception the generic 500; 502 never occurs |
| Api.WikiSearchView | backend/app.py:61-68 | the only error answer is the 400 for a blank term |
| Api.WikiForceView | backend/app.py:70-77 | the only error answer is the 400 for a blank term |
| Api.WikiViewsOutcomes | backend/app.py:61-77 | both wiki views give 400 exactly for a blank stripped term; otherwise they return the service result for the stripped term, and a failed service call escapes the view |

## Left out

- `original_link` (backend/services/wiki_service.py:52-59) is not modelled: nothing in the backend calls it.
- `wikipedia.set_lang` is global state in the library. The model passes the language to each oracle call instead.
- The HTTP requests themselves are oracles: redirects, timeouts (`timeout=(5, timeout)`, the client's 20 seconds), connection pools and retries are not modelled.
- The prompts sent to the completion API and the request payload of `_post` are not modelled. The post is given by its outcome.
- `_post`'s re-raised `HTTPError` message (`"...; body=..."`) is not modelled. Its text only reaches the user through `_describe_http_error`, which does not use it when a response is present.
- BeautifulSoup is an oracle (`Document`). It gives the title, the text blocks of p/h1/h2/h3 after removing script/style/noscript/iframe/form/footer/nav, and the final URL. `get_text(" ", strip=True)` is part of that oracle.
- The headers of the two header sets are defined (`ContentFetcher.Headers`), but nothing is proved about their contents.
- Python's `str.lower` and `str.isalnum` are approximated (`str.isspace` is modelled with Python's full set of whitespace characters):
  - `lower` folds ASCII letters only;
  - `isalnum` is ASCII letters and digits, Hangul and CJK ideographs.
- `\d` in the IP-host regex is modelled as ASCII digits. Python's `\d` also matches other Unicode decimal digits.
- `urlparse` is modelled for what the code reads: the scheme (letters, digits, "+-." after a leading letter, followed by ':') and the hostname. Netloc is read after "//", with user info, brackets, port and zone id handled. Before splitting, leading C0 controls and spaces are stripped and every tab, CR and LF is deleted; a netloc holding one bracket without the other raises ValueError.
- Url.UrlParse: the further checks of recent Python versions on a netloc holding both brackets (nothing before '[', only a port after ']', the bracketed text a valid IPv6 address or IPvFuture) and the NFKC check of non-ASCII netlocs are not modelled; such URLs are accepted.
- ContentFetcher.NormalizeUrlProperties: its failure condition is the modelled `urlparse` one, so a netloc with both brackets that recent Python versions still reject counts as accepted (likewise for ContentFetcher.NormalizeUrl).
- ContentFetcher.FetchWebpage: goes on to the attempts for such a netloc, for the same reason.
- Security.SecurityScanner.constructor: accepts such a netloc for the same reason (likewise Security.NewScanner).
- JSON numbers are integers; floats are not modelled. `str()` of a non-string JSON value is a fixed rendering (`Json.Repr`), not Python's exact `repr`.
- Perplexity.SummarizeWebpage: a reply without the expected shape makes Python raise KeyError, IndexError, TypeError or AttributeError. The model gives one non-request exception with a fixed message, not the exact type and text.
- The temperature is a `real`; the configuration in `backend/config.py` is not part of this model.
- Exceptions from the encyclopedia library other than DisambiguationError and PageError are modelled by their class as the backend's handlers see it and their text (`Failed(error)`, `SearchFailed(error)`); which class the library raises for which input is the oracle's choice.
- `SecurityReport.to_dict` and `jsonify` serialisation are not modelled.
- Flask routing, CORS, logging, `create_app` and `/health` are not modelled. Whether the completion client exists is a parameter (`clientReady`), which is the outcome of `Perplexity.NewClient` at start-up. The `"detail"` field of the 500 and 502 error bodies is not modelled.
- The frontend (React) is not part of this model.
