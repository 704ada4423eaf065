/**
 * The records the research pipeline passes around (`src/lib/types.ts`).
 * Optional fields are `Option`s; `source` keeps the string tag the
 * adapters write ("perplexity", "serper", "custom").
 */
module Types {
  import opened Wrappers

  datatype Priority = High | Medium | Low

  /** One source, whichever adapter produced it. */
  datatype SearchResult = SearchResult(
    url: Option<string>,
    title: Option<string>,
    content: Option<string>,
    snippet: Option<string>,
    source: string,
    position: Option<int>,
    date: Option<string>,
    used: Option<bool>,
    priority: Option<Priority>)

  /** The final answer with the sources it was built from. */
  datatype ResearchResult = ResearchResult(query: string, answer: string, sources: seq<SearchResult>, generatedAt: string)

  datatype ApiError = ApiError(message: string, statusCode: int, source: Option<string>)

  const PERPLEXITY: string := "perplexity"
  const SERPER: string := "serper"
  const CUSTOM: string := "custom"

  /** JavaScript truthiness of an optional string: present and not empty. */
  predicate Truthy(s: Option<string>) {
    s.Some? && s.value != []
  }

  /** `s || fallback` for an optional string. */
  function OrElse(s: Option<string>, fallback: string): (r: string)
    ensures Truthy(s) ==> r == s.value
    ensures !Truthy(s) ==> r == fallback
  {
    if Truthy(s) then s.value else fallback
  }

  /** What the AI-search adapter returns: its records, its (possibly empty) answer, and an error note. */
  datatype PerplexityResponse = PerplexityResponse(results: seq<SearchResult>, answer: string, error: Option<string>)

  /** What the synthesizer returns: the answer, the sources with `used` set, and the URLs it counted as used. */
  datatype OpenAIResponse = OpenAIResponse(answer: string, query: string, searchResults: seq<SearchResult>, usedSourceUrls: seq<Option<string>>)

  /** A call that either returns a value or throws an `ApiError`. */
  datatype Outcome<+T> = Success(value: T) | Failure(error: ApiError)

  /** One source of the older two-source pipeline (`research-app/src/lib/types.ts`); the score is in hundredths. */
  datatype LegacySource = LegacySource(title: string, url: string, snippet: string, source: string, relevanceScore: Option<int>)

  /** The older pipeline's final answer. */
  datatype LegacyResearchResult = LegacyResearchResult(query: string, answer: string, sources: seq<LegacySource>, generatedAt: string)

  /** The URL field of each source, in order (`sources.map(s => s.url)`). */
  function UrlsOf(rs: seq<SearchResult>): (r: seq<Option<string>>)
    ensures |r| == |rs| && forall k :: 0 <= k < |rs| ==> r[k] == rs[k].url
  {
    seq(|rs|, k requires 0 <= k < |rs| => rs[k].url)
  }

  /** A result with only the fields every adapter sets. */
  function Source(url: Option<string>, title: Option<string>, snippet: Option<string>, source: string): SearchResult {
    SearchResult(url, title, None, snippet, source, None, None, None, None)
  }
}
