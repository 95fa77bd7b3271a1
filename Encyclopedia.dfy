/** The `wikipedia` library and `urllib.parse.quote`, as seen by the backend:
    oracles with the language passed explicitly instead of the library's
    process-wide `set_lang` state. */
module Encyclopedia {
  import opened Base

  /** What one `wikipedia.summary(...)` call does: return the article's
      summary, or raise DisambiguationError (with its options), PageError,
      or any other exception, classified as the backend's handlers see it
      (a reply that is not JSON raises ValueError, a failed connection a
      RequestException, anything else another exception). */
  datatype Page =
    | Article(summary: string)
    | Disambiguation(options: seq<string>)
    | Missing
    | Failed(error: Error)

  /** The arguments of one `wikipedia.summary` call, language included. */
  datatype SummaryQuery = SummaryQuery(lang: string, title: string, sentences: nat, autoSuggest: bool)

  /** What `wikipedia.search(query)` does: return titles or raise. */
  datatype SearchReply = Titles(titles: seq<string>) | SearchFailed(error: Error)

  datatype Oracle = Oracle(
    summary: SummaryQuery -> Page,
    search: (string, string) -> SearchReply,   // (lang, query)
    urlQuote: string -> string)                // urllib.parse.quote

  /** `https://{lang}.wikipedia.org/wiki/{path}`. */
  function ArticleUrl(lang: string, path: string): string {
    "https://" + lang + ".wikipedia.org/wiki/" + path
  }
}
