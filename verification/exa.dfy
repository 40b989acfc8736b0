/**
 * The web-search client (backend/src/services/exa.py). The search service
 * is abstract: a function from the query and the requested result count to
 * either a list of raw results or a raised error.
 */
module Exa {
  import opened Wrappers
  import Text

  /** A result as the rest of the backend sees it: a Python dict of strings. */
  type Record = map<string, string>

  /** Python's `d.get(key, default)`. */
  function Get(r: Record, key: string, default: string): string {
    if key in r then r[key] else default
  }

  /** One raw result object of the service; `title` and `text` are attributes it may lack. */
  datatype Hit = Hit(url: string, title: Option<string>, text: Option<string>)

  datatype SearchOutcome = Returned(results: seq<Hit>) | SearchRaised(message: string)

  /** The search service: query and number of results asked for, to outcome. */
  type SearchService = (string, nat) -> SearchOutcome

  /** The client holds the configured key and, when the key is set, a service handle. */
  datatype ExaClient = ExaClient(apiKey: Option<string>, hasClient: bool)

  const RequestedResults := 3
  const SnippetLimit := 200

  /** Construction creates a service handle exactly when the key is set. */
  function NewClient(apiKey: Option<string>): (c: ExaClient)
    ensures c.apiKey == apiKey
    ensures c.hasClient <==> Truthy(apiKey)
  {
    ExaClient(apiKey, Truthy(apiKey))
  }

  /** The two fixed results returned when no key is configured. */
  const MockResults: seq<Record> := [
    map["url" := "https://en.wikipedia.org/wiki/Idiom",
        "title" := "Idiom - Wikipedia",
        "snippet" := "An idiom is a phrase or expression..."],
    map["url" := "https://dictionary.cambridge.org/",
        "title" := "Cambridge Dictionary",
        "snippet" := "Dictionary and grammar resources..."]
  ]

  /**
   * A raw result as a dict: the url copied, a missing title replaced by
   * "Source", and the text cut to at most 200 characters ("" when missing).
   */
  function ToRecord(h: Hit): (r: Record)
    ensures r.Keys == {"url", "title", "snippet"}
    ensures r["url"] == h.url
    ensures r["title"] == if h.title.Some? then h.title.value else "Source"
    ensures |r["snippet"]| <= SnippetLimit
    ensures h.text.None? ==> r["snippet"] == ""
    ensures h.text.Some? ==> Text.StartsWith(h.text.value, r["snippet"])
    ensures h.text.Some? && |h.text.value| <= SnippetLimit ==> r["snippet"] == h.text.value
  {
    map["url" := h.url,
        "title" := (if h.title.Some? then h.title.value else "Source"),
        "snippet" := (if h.text.Some? then Text.Take(h.text.value, SnippetLimit) else "")]
  }

  /** Whether a real search is made, rather than the mock list returned. */
  predicate Configured(c: ExaClient) {
    Truthy(c.apiKey) && c.hasClient
  }

  /**
   * `search_context`: the mock list without a key or handle, the empty list
   * when the service raises, and otherwise one dict per raw result, in order.
   */
  function SearchContext(c: ExaClient, query: string, search: SearchService): (r: seq<Record>)
    ensures !Configured(c) ==> r == MockResults
    ensures Configured(c) && search(query, RequestedResults).SearchRaised? ==> r == []
    ensures Configured(c) && search(query, RequestedResults).Returned? ==>
      var hits := search(query, RequestedResults).results;
      |r| == |hits| && forall i :: 0 <= i < |hits| ==> r[i] == ToRecord(hits[i])
  {
    if !Configured(c) then MockResults
    else match search(query, RequestedResults)
      case SearchRaised(_) => []
      case Returned(hits) => seq(|hits|, i requires 0 <= i < |hits| => ToRecord(hits[i]))
  }

  /** Every dict the client returns carries a url, a title and a snippet of at most 200 characters. */
  lemma SearchResultsWellFormed(c: ExaClient, query: string, search: SearchService)
    ensures forall r :: r in SearchContext(c, query, search) ==>
      r.Keys == {"url", "title", "snippet"} && |r["snippet"]| <= SnippetLimit
  {
    var rs := SearchContext(c, query, search);
    forall r | r in rs
      ensures r.Keys == {"url", "title", "snippet"} && |r["snippet"]| <= SnippetLimit
    {
      var i :| 0 <= i < |rs| && rs[i] == r;
      if !Configured(c) {
        assert r == MockResults[0] || r == MockResults[1];
      }
    }
  }
}
