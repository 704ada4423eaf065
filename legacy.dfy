/**
 * The older two-source research pipeline (`research-app/src/lib/api/research.ts`):
 * the AI-search and web-search payloads are merged into scored sources, the
 * answer is the AI-search answer, else the web answer box, else a summary
 * generated from the sources, and the sources are filtered (no empty or
 * repeated URL), sorted by descending score and capped at ten.
 *
 * Relevance scores are kept in hundredths: 0.9 is 90, 0.9 - 0.05 * i is
 * 90 - 5 * i and 1.0 is 100.
 */
module Legacy {
  import opened Wrappers
  import opened Text
  import opened Types
  import Seqs
  import ApiUtils

  // ---------------------------------------------------------------------
  // Payloads of the two adapters (`research-app/src/lib/types.ts`)

  /** One AI-search result. */
  datatype Hit = Hit(title: string, url: string, snippet: string)

  /** The AI-search payload; both fields may be missing from the reply. */
  datatype AiReply = AiReply(answer: Option<string>, searchResults: Option<seq<Hit>>)

  /** One organic web result. */
  datatype OrganicHit = OrganicHit(title: string, link: string, snippet: string)

  /** The web-search knowledge graph. */
  datatype Graph = Graph(title: string, description: string)

  /** The web-search payload; `boxAnswer` is `answerBox?.answer`. */
  datatype WebReply = WebReply(organic: Option<seq<OrganicHit>>, knowledgeGraph: Option<Graph>, boxAnswer: Option<string>)

  const AI_SCORE: int := 90
  const GRAPH_SCORE: int := 100
  const MAX_SOURCES: nat := 10
  const FAILED_ALL: string := "Failed to fetch data from any research source"

  // ---------------------------------------------------------------------
  // Scored sources

  /** The sort key: `relevanceScore || 0`. */
  function Score(s: LegacySource): int {
    if s.relevanceScore.Some? then s.relevanceScore.value else 0
  }

  /** AI-search results, each scored 0.9. */
  function AiSources(hits: seq<Hit>): (r: seq<LegacySource>)
    ensures |r| == |hits|
    ensures forall i :: 0 <= i < |hits| ==>
      r[i] == LegacySource(hits[i].title, hits[i].url, hits[i].snippet, PERPLEXITY, Some(AI_SCORE))
  {
    seq(|hits|, i requires 0 <= i < |hits| => LegacySource(hits[i].title, hits[i].url, hits[i].snippet, PERPLEXITY, Some(AI_SCORE)))
  }

  /** Organic web results, the one at index `i` scored 0.9 - 0.05 * i. */
  function WebSources(organic: seq<OrganicHit>): (r: seq<LegacySource>)
    ensures |r| == |organic|
    ensures forall i :: 0 <= i < |organic| ==>
      r[i] == LegacySource(organic[i].title, organic[i].link, organic[i].snippet, SERPER, Some(AI_SCORE - 5 * i))
  {
    seq(|organic|, i requires 0 <= i < |organic| =>
      LegacySource(organic[i].title, organic[i].link, organic[i].snippet, SERPER, Some(AI_SCORE - 5 * i)))
  }

  /** The knowledge-graph entry: no URL, scored 1.0. */
  function GraphSource(g: Graph): LegacySource {
    LegacySource(g.title, "", g.description, SERPER, Some(GRAPH_SCORE))
  }

  /** What each payload contributes, in push order. */
  function AiPart(ai: Option<AiReply>): seq<LegacySource> {
    if ai.Some? && ai.value.searchResults.Some? then AiSources(ai.value.searchResults.value) else []
  }

  function WebPart(web: Option<WebReply>): seq<LegacySource> {
    if web.Some? && web.value.organic.Some? then WebSources(web.value.organic.value) else []
  }

  function GraphPart(web: Option<WebReply>): seq<LegacySource> {
    if web.Some? && web.value.knowledgeGraph.Some? then [GraphSource(web.value.knowledgeGraph.value)] else []
  }

  /** All sources before filtering: AI-search results, organic results, then the knowledge graph. */
  function Aggregate(ai: Option<AiReply>, web: Option<WebReply>): seq<LegacySource> {
    AiPart(ai) + WebPart(web) + GraphPart(web)
  }

  /** Organic results earlier in the list score strictly higher, and none scores above an AI-search result. */
  lemma WebScoresDecrease(organic: seq<OrganicHit>, i: nat, j: nat)
    requires i < j < |organic|
    ensures Score(WebSources(organic)[i]) > Score(WebSources(organic)[j])
    ensures Score(WebSources(organic)[i]) <= AI_SCORE
  {
  }

  // ---------------------------------------------------------------------
  // filterAndSortSources

  /** The URL of each source, in order. */
  function Urls(s: seq<LegacySource>): (r: seq<string>)
    ensures |r| == |s| && forall i :: 0 <= i < |s| ==> r[i] == s[i].url
  {
    seq(|s|, i requires 0 <= i < |s| => s[i].url)
  }

  lemma UrlsSnoc(s: seq<LegacySource>, x: LegacySource)
    ensures Urls(s + [x]) == Urls(s) + [x.url]
  {
  }

  predicate DistinctUrls(s: seq<LegacySource>) {
    Seqs.NoDuplicates(Urls(s))
  }

  /** The first source of `s` with URL `u`, if any. */
  function FirstWithUrl(s: seq<LegacySource>, u: string): (r: Option<LegacySource>)
    ensures r.Some? <==> u in Urls(s)
    ensures r.Some? ==> r.value in s && r.value.url == u
    ensures r.Some? ==> exists i :: 0 <= i < |s| && s[i] == r.value && forall j :: 0 <= j < i ==> s[j].url != u
  {
    if s == [] then None
    else
      var p := s[..|s| - 1];
      var f := FirstWithUrl(p, u);
      assert Urls(s) == Urls(p) + [s[|s| - 1].url];
      if f.Some? then
        var i :| 0 <= i < |p| && p[i] == f.value && forall j :: 0 <= j < i ==> p[j].url != u;
        assert s[i] == p[i];
        f
      else if s[|s| - 1].url == u then
        assert forall j :: 0 <= j < |p| ==> s[j].url == Urls(p)[j];
        Some(s[|s| - 1])
      else None
  }

  /**
   * The filtering half of `filterAndSortSources`: a source is kept when its
   * URL is non-empty and no earlier source had the same URL. Every non-empty
   * URL survives once, carried by its first source, in input order.
   */
  function FirstByUrl(s: seq<LegacySource>): (r: seq<LegacySource>)
    ensures forall i :: 0 <= i < |r| ==> r[i].url != "" && r[i] in s
    ensures DistinctUrls(r)
    ensures forall u :: u in Urls(r) <==> u in Urls(s) && u != ""
    ensures forall i :: 0 <= i < |r| ==> FirstWithUrl(s, r[i].url) == Some(r[i])
  {
    if s == [] then []
    else
      var p := s[..|s| - 1];
      var x := s[|s| - 1];
      var f := FirstByUrl(p);
      assert s == p + [x];
      UrlsSnoc(p, x);
      if x.url == "" || x.url in Urls(f) then f
      else
        UrlsSnoc(f, x);
        f + [x]
  }

  /** Keeping the last source as `FirstByUrl` does. */
  lemma FirstByUrlSnoc(p: seq<LegacySource>, x: LegacySource)
    ensures FirstByUrl(p + [x]) == if x.url == "" || x.url in Urls(FirstByUrl(p)) then FirstByUrl(p) else FirstByUrl(p) + [x]
  {
    assert (p + [x])[..|p|] == p;
  }

  /** The kept sources are in input order: of two kept sources, the earlier one stands earlier in the input. */
  lemma {:induction false} FirstByUrlOrder(s: seq<LegacySource>, i: nat, j: nat)
    requires i < j < |FirstByUrl(s)|
    ensures exists a, b :: 0 <= a < b < |s| && s[a] == FirstByUrl(s)[i] && s[b] == FirstByUrl(s)[j]
  {
    var p := s[..|s| - 1];
    var x := s[|s| - 1];
    var f := FirstByUrl(p);
    Seqs.InitLast(s);
    FirstByUrlSnoc(p, x);
    if j < |f| {
      FirstByUrlOrder(p, i, j);
    }
    OrderStep(p, x, f, FirstByUrl(s), i, j);
  }

  /** Keeping the last element or not preserves the input order of kept elements. */
  lemma OrderStep<T>(p: seq<T>, x: T, f: seq<T>, r: seq<T>, i: nat, j: nat)
    requires r == f || r == f + [x]
    requires i < j < |r| && forall k :: 0 <= k < |f| ==> f[k] in p
    requires j < |f| ==> exists a, b :: 0 <= a < b < |p| && p[a] == f[i] && p[b] == f[j]
    ensures exists a, b :: 0 <= a < b < |p + [x]| && (p + [x])[a] == r[i] && (p + [x])[b] == r[j]
  {
    var s := p + [x];
    if j < |f| {
      var a, b :| 0 <= a < b < |p| && p[a] == f[i] && p[b] == f[j];
      assert s[a] == r[i] && s[b] == r[j];
    } else {
      assert f[i] in p;
      var a :| 0 <= a < |p| && p[a] == f[i];
      assert s[a] == r[i] && s[|p|] == r[j];
    }
  }

  /** `filterAndSortSources` as a function of its input. */
  function FilterAndSort(s: seq<LegacySource>): seq<LegacySource> {
    Seqs.Take(Seqs.SortDesc(FirstByUrl(s), Score), MAX_SOURCES)
  }

  /** Appending a source whose URL is new keeps the URLs distinct. */
  lemma DistinctSnoc(q: seq<LegacySource>, y: LegacySource)
    requires DistinctUrls(q) && y.url !in Urls(q)
    ensures DistinctUrls(q + [y])
    ensures forall u :: u in Urls(q + [y]) <==> u in Urls(q) || u == y.url
  {
    UrlsSnoc(q, y);
  }

  /** Inserting a source whose URL is new keeps the URLs distinct and adds that URL. */
  lemma {:induction false} InsertDescUrls(t: seq<LegacySource>, x: LegacySource)
    requires DistinctUrls(t) && x.url !in Urls(t)
    ensures DistinctUrls(Seqs.InsertDesc(t, x, Score))
    ensures forall u :: u in Urls(Seqs.InsertDesc(t, x, Score)) <==> u in Urls(t) || u == x.url
  {
    if t == [] || Score(t[|t| - 1]) >= Score(x) {
      DistinctSnoc(t, x);
    } else {
      var p := t[..|t| - 1];
      var y := t[|t| - 1];
      var q := Seqs.InsertDesc(p, x, Score);
      Seqs.InsertDescPast(t, x, Score);
      DistinctInit(t);
      InsertDescUrls(p, x);
      DistinctSnoc(q, y);
    }
  }

  /** Dropping the last source keeps the URLs distinct, and the last URL is not among the others. */
  lemma DistinctInit(t: seq<LegacySource>)
    requires t != [] && DistinctUrls(t)
    ensures var p := t[..|t| - 1]; DistinctUrls(p) && t[|t| - 1].url !in Urls(p)
    ensures forall u :: u in Urls(t) <==> u in Urls(t[..|t| - 1]) || u == t[|t| - 1].url
  {
    var p := t[..|t| - 1];
    assert t == p + [t[|t| - 1]];
    UrlsSnoc(p, t[|t| - 1]);
  }

  /** Sorting sources with distinct URLs keeps them distinct. */
  lemma {:induction false} SortDescUrls(s: seq<LegacySource>)
    requires DistinctUrls(s)
    ensures DistinctUrls(Seqs.SortDesc(s, Score))
    ensures forall u :: u in Urls(Seqs.SortDesc(s, Score)) <==> u in Urls(s)
  {
    if s != [] {
      var p := s[..|s| - 1];
      var x := s[|s| - 1];
      assert s == p + [x];
      UrlsSnoc(p, x);
      SortDescUrls(p);
      InsertDescUrls(Seqs.SortDesc(p, Score), x);
    }
  }

  /**
   * The order of `filterAndSortSources`: at most ten sources, by
   * non-increasing score, a prefix of the deduplicated sources sorted
   * stably, so sources with equal scores keep their input order.
   */
  lemma FilterAndSortOrder(s: seq<LegacySource>)
    ensures |FilterAndSort(s)| <= MAX_SOURCES
    ensures Seqs.SortedDesc(FilterAndSort(s), Score)
    ensures FilterAndSort(s) == Seqs.SortDesc(FirstByUrl(s), Score)[..|FilterAndSort(s)|]
    ensures forall v :: Seqs.WithKey(Seqs.SortDesc(FirstByUrl(s), Score), Score, v) == Seqs.WithKey(FirstByUrl(s), Score, v)
  {
    Seqs.SortDescCorrect(FirstByUrl(s), Score);
  }

  /** The members of `filterAndSortSources`: input sources with non-empty, pairwise distinct URLs. */
  lemma FilterAndSortMembers(s: seq<LegacySource>)
    ensures forall i :: 0 <= i < |FilterAndSort(s)| ==> FilterAndSort(s)[i].url != "" && FilterAndSort(s)[i] in s
    ensures DistinctUrls(FilterAndSort(s))
  {
    var f := FirstByUrl(s);
    var sorted := Seqs.SortDesc(f, Score);
    var r := FilterAndSort(s);
    assert r == sorted[..|r|];
    SortedMembers(f);
    SortDescUrls(f);
    assert Urls(r) == Urls(sorted)[..|r|];
  }

  lemma SortedMembers(f: seq<LegacySource>)
    ensures forall i :: 0 <= i < |Seqs.SortDesc(f, Score)| ==> Seqs.SortDesc(f, Score)[i] in f
  {
    var sorted := Seqs.SortDesc(f, Score);
    Seqs.SortDescCorrect(f, Score);
    forall i | 0 <= i < |sorted| ensures sorted[i] in f {
      assert sorted[i] in multiset(f);
    }
  }

  /** The imperative filter with its `Set` of seen URLs, then the in-place sort and the cap. */
  method FilterAndSortSources(sources: seq<LegacySource>) returns (r: seq<LegacySource>)
    ensures r == FilterAndSort(sources)
  {
    var seen: set<string> := {};
    var kept: seq<LegacySource> := [];
    for k := 0 to |sources|
      invariant kept == FirstByUrl(sources[..k])
      invariant forall u :: u in seen <==> u in Urls(kept)
    {
      var x := sources[k];
      assert sources[..k + 1] == sources[..k] + [x];
      FirstByUrlSnoc(sources[..k], x);
      if x.url != "" && x.url !in seen {
        seen := seen + {x.url};
        UrlsSnoc(kept, x);
        kept := kept + [x];
      }
    }
    assert sources[..|sources|] == sources;
    r := Seqs.Take(Seqs.SortDesc(kept, Score), MAX_SOURCES);
  }

  /** A merged source with a URL is an AI-search or organic result, so it scores at most 0.9. */
  lemma MergedWithUrl(ai: Option<AiReply>, web: Option<WebReply>, x: LegacySource)
    requires x in Aggregate(ai, web) && x.url != ""
    ensures Score(x) <= AI_SCORE
  {
    if x in WebPart(web) {
      var j :| 0 <= j < |WebPart(web)| && WebPart(web)[j] == x;
    }
  }

  /** The knowledge-graph entry has no URL, so it never survives filtering; every kept source scores at most 0.9. */
  lemma GraphEntryDropped(ai: Option<AiReply>, web: Option<WebReply>)
    ensures web.Some? && web.value.knowledgeGraph.Some? ==> GraphSource(web.value.knowledgeGraph.value) !in FilterAndSort(Aggregate(ai, web))
    ensures forall x :: x in FilterAndSort(Aggregate(ai, web)) ==> Score(x) <= AI_SCORE
  {
    var s := Aggregate(ai, web);
    var r := FilterAndSort(s);
    FilterAndSortMembers(s);
    forall x | x in r ensures x.url != "" && Score(x) <= AI_SCORE {
      var i :| 0 <= i < |r| && r[i] == x;
      MergedWithUrl(ai, web, x);
    }
  }

  // ---------------------------------------------------------------------
  // extractKeyTerms

  predicate Spaceless(w: string) {
    forall i :: 0 <= i < |w| ==> !IsSpace(w[i])
  }

  /**
   * `s.split(/\s+/)`: the pieces between maximal runs of whitespace. A
   * leading or trailing run gives an empty first or last piece, and the
   * empty string gives one empty piece.
   */
  function Words(s: string): (r: seq<string>)
    ensures |r| >= 1
    ensures forall i :: 0 <= i < |r| ==> Spaceless(r[i])
    decreases |s|
  {
    var k := RunOf(s, NotSpace);
    if k == |s| then [s]
    else
      assert s[k..][0] == s[k];
      var n := RunOf(s[k..], IsSpace);
      [s[..k]] + Words(s[k + n..])
  }

  /** A string without whitespace is a single word. */
  lemma WordsOfSpaceless(w: string)
    requires Spaceless(w)
    ensures Words(w) == [w]
  {
    RunOfExact(w, NotSpace, |w|);
  }

  /**
   * A maximal whitespace run ends a word: the word, then the run, then text
   * that does not start with whitespace. With `w` empty this is a leading
   * run, which gives an empty first piece.
   */
  lemma WordsCons(w: string, ws: string, s: string)
    requires Spaceless(w)
    requires |ws| > 0 && forall i :: 0 <= i < |ws| ==> IsSpace(ws[i])
    requires s == [] || !IsSpace(s[0])
    ensures Words(w + ws + s) == [w] + Words(s)
  {
    var t := w + ws + s;
    var k := |w|;
    RunOfExact(t, NotSpace, k);
    var rest := t[k..];
    assert rest == ws + s;
    RunOfExact(rest, IsSpace, |ws|);
    assert Words(t) == [t[..k]] + Words(t[k + |ws|..]);
    assert t[..k] == w;
    assert t[k + |ws|..] == s;
  }

  /** One row of a frequency table; tables list their rows in insertion order, as `Object.entries` does. */
  datatype Entry = Entry(term: string, count: nat)

  function Count(e: Entry): int {
    e.count
  }

  function Terms(es: seq<Entry>): (r: seq<string>)
    ensures |r| == |es| && forall i :: 0 <= i < |es| ==> r[i] == es[i].term
  {
    if es == [] then [] else [es[0].term] + Terms(es[1..])
  }

  /** The count recorded for `t` (`freq[t] || 0`). */
  function CountOf(es: seq<Entry>, t: string): nat {
    if es == [] then 0 else if es[0].term == t then es[0].count else CountOf(es[1..], t)
  }

  /** `freq[key] = (freq[key] || 0) + 1`: an existing row is incremented in place, a new key is appended with count 1. */
  function Bump(es: seq<Entry>, key: string): (r: seq<Entry>)
    ensures Terms(r) == if key in Terms(es) then Terms(es) else Terms(es) + [key]
  {
    if es == [] then [Entry(key, 1)]
    else if es[0].term == key then [Entry(key, es[0].count + 1)] + es[1..]
    else
      assert Terms(es) == [es[0].term] + Terms(es[1..]);
      [es[0]] + Bump(es[1..], key)
  }

  /** Bumping `key` adds one to its count and leaves every other count alone. */
  lemma {:induction false} BumpCount(es: seq<Entry>, key: string, t: string)
    ensures CountOf(Bump(es, key), t) == CountOf(es, t) + (if t == key then 1 else 0)
  {
    if es != [] && es[0].term != key {
      BumpCount(es[1..], key, t);
    }
  }

  /** The frequency table of `keys`, filled left to right. */
  function Tally(keys: seq<string>): seq<Entry> {
    if keys == [] then [] else Bump(Tally(keys[..|keys| - 1]), keys[|keys| - 1])
  }

  lemma TallySnoc(keys: seq<string>, k: string)
    ensures Tally(keys + [k]) == Bump(Tally(keys), k)
  {
    assert (keys + [k])[..|keys|] == keys;
  }

  /** The table counts every key exactly as often as it occurs. */
  lemma {:induction false} TallyCounts(keys: seq<string>, t: string)
    ensures CountOf(Tally(keys), t) == multiset(keys)[t]
  {
    if keys != [] {
      var p := keys[..|keys| - 1];
      assert keys == p + [keys[|keys| - 1]];
      TallyCounts(p, t);
      BumpCount(Tally(p), keys[|keys| - 1], t);
    }
  }

  /** Every key occurs in the table once, and only keys do. */
  lemma {:induction false} TallyTerms(keys: seq<string>)
    ensures Seqs.NoDuplicates(Terms(Tally(keys)))
    ensures forall t :: t in Terms(Tally(keys)) <==> t in keys
  {
    if keys != [] {
      var p := keys[..|keys| - 1];
      assert keys == p + [keys[|keys| - 1]];
      TallyTerms(p);
    }
  }

  /** In a table without repeated terms, each row holds the count of its term. */
  lemma {:induction false} RowCount(es: seq<Entry>, e: Entry)
    requires Seqs.NoDuplicates(Terms(es)) && e in es
    ensures e.count == CountOf(es, e.term)
  {
    if es[0] != e {
      assert e in es[1..];
      var k :| 0 <= k < |es[1..]| && es[1..][k] == e;
      assert Terms(es)[k + 1] == e.term;
      assert Terms(es)[1..] == Terms(es[1..]);
      RowCount(es[1..], e);
    }
  }

  /** Each row of a tally is a key with its number of occurrences. */
  lemma TallyRow(keys: seq<string>, e: Entry)
    requires e in Tally(keys)
    ensures e.term in keys && e.count == multiset(keys)[e.term]
  {
    TallyTerms(keys);
    RowCount(Tally(keys), e);
    TallyCounts(keys, e.term);
    var k :| 0 <= k < |Tally(keys)| && Tally(keys)[k] == e;
    assert Terms(Tally(keys))[k] == e.term;
  }

  /** The words longer than three characters that are not query words, in order. */
  function LongWords(words: seq<string>, queryWords: seq<string>): (r: seq<string>)
    ensures forall w :: w in r ==> |w| > 3 && w !in queryWords
    ensures forall i :: 0 <= i < |words| && |words[i]| > 3 && words[i] !in queryWords ==> words[i] in r
  {
    if words == [] then []
    else
      var w := words[|words| - 1];
      LongWords(words[..|words| - 1], queryWords) + if |w| > 3 && w !in queryWords then [w] else []
  }

  /** The phrases "a b" of adjacent words that are both longer than three characters, in order. */
  function Pairs(words: seq<string>): seq<string> {
    if |words| < 2 then []
    else
      var a := words[|words| - 2];
      var b := words[|words| - 1];
      Pairs(words[..|words| - 1]) + if |a| > 3 && |b| > 3 then [a + " " + b] else []
  }

  function QueryWords(query: string): seq<string> {
    Words(Lower(query))
  }

  function TextWords(texts: seq<string>): seq<string> {
    Words(Lower(Join(texts, " ")))
  }

  /** The word rows, then the phrase rows, sorted stably by descending count and cut to ten. */
  function TopEntries(query: string, texts: seq<string>): seq<Entry> {
    var words := TextWords(texts);
    Seqs.Take(Seqs.SortDesc(Tally(LongWords(words, QueryWords(query))) + Tally(Pairs(words)), Count), 10)
  }

  /** `extractKeyTerms` as a function of its inputs. */
  function KeyTerms(query: string, texts: seq<string>): seq<string> {
    ApiUtils.CapitalizeAll(Terms(TopEntries(query, texts)))
  }

  /**
   * The key terms: at most ten, in non-increasing order of frequency, each
   * the capitalised form of a row that is either a long non-query word with
   * its number of occurrences, or an adjacent pair with its number of
   * occurrences.
   */
  lemma KeyTermsCorrect(query: string, texts: seq<string>)
    ensures |KeyTerms(query, texts)| == |TopEntries(query, texts)| <= 10
    ensures forall i :: 0 <= i < |KeyTerms(query, texts)| ==>
      KeyTerms(query, texts)[i] == ApiUtils.CapitalizeFirst(TopEntries(query, texts)[i].term)
    ensures Seqs.SortedDesc(TopEntries(query, texts), Count)
    ensures forall e :: e in TopEntries(query, texts) ==>
      var words := TextWords(texts);
      (|e.term| > 3 && e.term !in QueryWords(query) && e.count == multiset(LongWords(words, QueryWords(query)))[e.term])
      || (e.count == multiset(Pairs(words))[e.term]
        && exists i :: 0 <= i < |words| - 1 && |words[i]| > 3 && |words[i + 1]| > 3 && e.term == words[i] + " " + words[i + 1])
  {
    var words := TextWords(texts);
    var long := LongWords(words, QueryWords(query));
    var pairs := Pairs(words);
    var top := TopEntries(query, texts);
    assert top == Seqs.Take(Seqs.SortDesc(Tally(long) + Tally(pairs), Count), 10);
    TopSorted(Tally(long) + Tally(pairs));
    forall e | e in top
      ensures (|e.term| > 3 && e.term !in QueryWords(query) && e.count == multiset(long)[e.term])
        || (e.count == multiset(pairs)[e.term]
          && exists i :: 0 <= i < |words| - 1 && |words[i]| > 3 && |words[i + 1]| > 3 && e.term == words[i] + " " + words[i + 1])
    {
      TopRowOrigin(long, pairs, e);
      if !(e.term in long && e.count == multiset(long)[e.term]) {
        PairsAdjacent(words, e.term);
      }
    }
  }

  /** The first ten rows of the sorted table are in non-increasing order of count. */
  lemma TopSorted(rows: seq<Entry>)
    ensures Seqs.SortedDesc(Seqs.Take(Seqs.SortDesc(rows, Count), 10), Count)
  {
    var sorted := Seqs.SortDesc(rows, Count);
    Seqs.SortDescCorrect(rows, Count);
    assert Seqs.Take(sorted, 10) == sorted[..|Seqs.Take(sorted, 10)|];
  }

  /** Each of the first ten sorted rows is a row of one of the two tallies. */
  lemma TopRowOrigin(long: seq<string>, pairs: seq<string>, e: Entry)
    requires e in Seqs.Take(Seqs.SortDesc(Tally(long) + Tally(pairs), Count), 10)
    ensures (e.term in long && e.count == multiset(long)[e.term]) || (e.term in pairs && e.count == multiset(pairs)[e.term])
  {
    var rows := Tally(long) + Tally(pairs);
    var sorted := Seqs.SortDesc(rows, Count);
    Seqs.SortDescCorrect(rows, Count);
    assert e in sorted;
    assert e in multiset(rows);
    if e in Tally(long) {
      TallyRow(long, e);
    } else {
      TallyRow(pairs, e);
    }
  }

  /** The long words of a concatenation are those of each part, in order, so every occurrence is kept once in place. */
  lemma {:induction false} LongWordsConcat(a: seq<string>, b: seq<string>, queryWords: seq<string>)
    ensures LongWords(a + b, queryWords) == LongWords(a, queryWords) + LongWords(b, queryWords)
    decreases |b|
  {
    if b == [] {
      assert a + b == a;
    } else {
      var b0 := b[..|b| - 1];
      var w := b[|b| - 1];
      var e: seq<string> := if |w| > 3 && w !in queryWords then [w] else [];
      Seqs.InitLast(b);
      Seqs.Assoc(a, b0, [w]);
      LongWordsSnoc(a + b0, w, queryWords);
      LongWordsSnoc(b0, w, queryWords);
      LongWordsConcat(a, b0, queryWords);
      Seqs.Assoc(LongWords(a, queryWords), LongWords(b0, queryWords), e);
    }
  }

  /** Every phrase counted is two adjacent words, both longer than three characters, joined by a space. */
  lemma {:induction false} PairsAdjacent(words: seq<string>, t: string)
    requires t in Pairs(words)
    ensures exists i :: 0 <= i < |words| - 1 && |words[i]| > 3 && |words[i + 1]| > 3 && t == words[i] + " " + words[i + 1]
  {
    var p := words[..|words| - 1];
    var a := words[|words| - 2];
    var b := words[|words| - 1];
    if t in Pairs(p) {
      PairsAdjacent(p, t);
      var i :| 0 <= i < |p| - 1 && |p[i]| > 3 && |p[i + 1]| > 3 && t == p[i] + " " + p[i + 1];
      assert words[i] == p[i] && words[i + 1] == p[i + 1];
    } else {
      assert t == a + " " + b && |a| > 3 && |b| > 3;
      assert words[|words| - 2 + 1] == b;
    }
  }

  lemma LongWordsSnoc(words: seq<string>, w: string, queryWords: seq<string>)
    ensures LongWords(words + [w], queryWords)
         == LongWords(words, queryWords) + if |w| > 3 && w !in queryWords then [w] else []
  {
    assert (words + [w])[..|words|] == words;
  }

  lemma PairsSnoc(words: seq<string>, b: string)
    requires |words| >= 1
    ensures Pairs(words + [b])
         == Pairs(words) + if |words[|words| - 1]| > 3 && |b| > 3 then [words[|words| - 1] + " " + b] else []
  {
    assert (words + [b])[..|words|] == words;
  }

  /** The `forEach` over the words: counts the long words that are not query words. */
  method CountWords(words: seq<string>, queryWords: seq<string>) returns (wordFrequency: seq<Entry>)
    ensures wordFrequency == Tally(LongWords(words, queryWords))
  {
    wordFrequency := [];
    for i := 0 to |words|
      invariant wordFrequency == Tally(LongWords(words[..i], queryWords))
    {
      var w := words[i];
      assert words[..i + 1] == words[..i] + [w];
      LongWordsSnoc(words[..i], w, queryWords);
      if |w| > 3 && w !in queryWords {
        TallySnoc(LongWords(words[..i], queryWords), w);
        wordFrequency := Bump(wordFrequency, w);
      } else {
        assert LongWords(words[..i] + [w], queryWords) == LongWords(words[..i], queryWords);
      }
    }
    assert words[..|words|] == words;
  }

  /** The `for` loop over adjacent words: counts the pairs of long words. */
  method CountPhrases(words: seq<string>) returns (phrases: seq<Entry>)
    requires |words| >= 1
    ensures phrases == Tally(Pairs(words))
  {
    phrases := [];
    assert Pairs(words[..1]) == [];
    for i := 0 to |words| - 1
      invariant phrases == Tally(Pairs(words[..i + 1]))
    {
      var prefix := words[..i + 1];
      assert words[..i + 2] == prefix + [words[i + 1]];
      assert prefix[|prefix| - 1] == words[i];
      PairsSnoc(prefix, words[i + 1]);
      var phrase := words[i] + " " + words[i + 1];
      if |words[i]| > 3 && |words[i + 1]| > 3 {
        TallySnoc(Pairs(prefix), phrase);
        phrases := Bump(phrases, phrase);
      } else {
        assert Pairs(prefix + [words[i + 1]]) == Pairs(prefix);
      }
    }
    assert words[..|words|] == words;
  }

  /** `extractKeyTerms`: the two frequency tables are filled by loops, then ranked. */
  method ExtractKeyTerms(query: string, texts: seq<string>) returns (terms: seq<string>)
    ensures terms == KeyTerms(query, texts)
  {
    var words := TextWords(texts);
    var wordFrequency := CountWords(words, QueryWords(query));
    var phrases := CountPhrases(words);
    var top := Seqs.Take(Seqs.SortDesc(wordFrequency + phrases, Count), 10);
    terms := ApiUtils.CapitalizeAll(Terms(top));
  }

  // ---------------------------------------------------------------------
  // extractConcisePoint

  predicate IsTerminator(c: char) {
    c == '.' || c == '!' || c == '?'
  }

  predicate NotTerminator(c: char) {
    !IsTerminator(c)
  }

  /** One sentence: non-empty, ending with its only `.`, `!` or `?`. */
  predicate IsSentence(r: string) {
    r != [] && IsTerminator(r[|r| - 1]) && forall i :: 0 <= i < |r| - 1 ==> !IsTerminator(r[i])
  }

  /** The match of `^[^.!?]*[.!?]`: the text up to and including the first terminator, if there is one. */
  function FirstSentence(s: string): (r: Option<string>)
    ensures r.None? <==> forall i :: 0 <= i < |s| ==> !IsTerminator(s[i])
    ensures r.Some? ==> StartsWith(s, r.value) && IsSentence(r.value)
  {
    var k := RunOf(s, NotTerminator);
    if k == |s| then None else Some(s[..k + 1])
  }

  /** Trimming a sentence leaves a sentence. */
  lemma TrimSentence(m: string)
    requires IsSentence(m)
    ensures IsSentence(Trim(m))
  {
    var a, b := TrimIsInfix(m);
    TrimmedSentence(m, a, b);
  }

  /** A sentence with blank text cut from both ends is still a sentence, since it ends with its terminator. */
  lemma TrimmedSentence(m: string, a: nat, b: nat)
    requires IsSentence(m) && a <= b <= |m| && IsBlank(m[..a]) && IsBlank(m[b..])
    ensures IsSentence(m[a..b])
  {
    var n := |m| - 1;
    assert !IsSpace(m[n]);
    BlankCutLast(m, a, b);
    assert a < b == |m|;
    assert m[a..b][b - a - 1] == m[n];
    assert forall i :: 0 <= i < b - a - 1 ==> m[a..b][i] == m[a + i];
  }

  /** When a blank head is the whole text, or a blank tail is not empty, the last character is whitespace. */
  lemma BlankCutLast(m: string, a: nat, b: nat)
    requires a <= b <= |m| && IsBlank(m[..a]) && IsBlank(m[b..])
    ensures (b < |m| || a == |m| > 0) ==> IsSpace(m[|m| - 1])
  {
    if b < |m| {
      assert m[b..][|m| - 1 - b] == m[|m| - 1];
    } else if a == |m| > 0 {
      assert m[..a][|m| - 1] == m[|m| - 1];
    }
  }

  const ELLIPSIS: string := "..."

  /**
   * `extractConcisePoint`: a snippet under 120 characters with its first
   * character upper-cased; otherwise its first sentence, trimmed, when that
   * is longer than 20 characters; otherwise its first 100 characters,
   * trimmed, followed by an ellipsis.
   */
  function ConcisePoint(snippet: string): (r: string)
    ensures |snippet| < 120 ==> |r| == |snippet| && (snippet != [] ==> r[0] == ToUpper(snippet[0]) && r[1..] == snippet[1..])
    ensures |snippet| >= 120 ==>
      (IsSentence(r) <==> FirstSentence(snippet).Some? && |FirstSentence(snippet).value| > 20)
    ensures |snippet| >= 120 && !IsSentence(r) ==> EndsWith(r, ELLIPSIS) && |r| <= 100 + |ELLIPSIS|
    ensures |snippet| >= 120 && FirstSentence(snippet).Some? && |FirstSentence(snippet).value| > 20 ==>
      r == Trim(FirstSentence(snippet).value)
    ensures |snippet| >= 120 && !(FirstSentence(snippet).Some? && |FirstSentence(snippet).value| > 20) ==>
      r == Trim(snippet[..100]) + ELLIPSIS
  {
    if |snippet| < 120 then ApiUtils.CapitalizeFirst(snippet)
    else
      var m := FirstSentence(snippet);
      if m.Some? && |m.value| > 20 then
        TrimSentence(m.value);
        Trim(m.value)
      else
        var t := Trim(snippet[..100]);
        assert |t| <= 100;
        Affixes(t, ELLIPSIS);
        assert (t + ELLIPSIS)[|t + ELLIPSIS| - 2] == '.';
        t + ELLIPSIS
  }

  // ---------------------------------------------------------------------
  // generateSummaryFromSources

  const NO_INFO_HEAD: string := "No specific information was found regarding \""
  const NO_INFO_TAIL: string := "\". Please try rephrasing your question or exploring a different topic."
  const TITLE_HEAD: string := "# Research on \""
  const INTRO_HEAD: string := "\"\n\nBased on information gathered from multiple sources, here's what we found about \""
  const FINDINGS_HEADING: string := "\":\n\n## Main Findings\n\n"
  const CLOSING_HEAD: string := "\n## Summary\n\nThe research on \""
  const CLOSING_TAIL: string :=
    "\" indicates various perspectives and information sources. For more detailed information, please review the references provided below."

  function NoInformation(query: string): string {
    NO_INFO_HEAD + query + NO_INFO_TAIL
  }

  /** The title, the introduction and the findings heading, each naming the query. */
  function Opening(query: string): string {
    TITLE_HEAD + query + INTRO_HEAD + query + FINDINGS_HEADING
  }

  function Closing(query: string): string {
    CLOSING_HEAD + query + CLOSING_TAIL
  }

  const CONCEPTS_HEADING: string := "\n## Key Concepts\n\n"

  /** One markdown list line. */
  function Bullet(text: string): string {
    "- " + text + "\n"
  }

  /** The bullet a source contributes: its concise point, when it has a snippet. */
  function Finding(x: LegacySource): string {
    if x.snippet != "" then Bullet(ConcisePoint(x.snippet)) else ""
  }

  /** A bullet with the concise point of each source that has a snippet, in order. */
  function Bullets(top: seq<LegacySource>): (r: string)
    ensures r == "" <==> forall i :: 0 <= i < |top| ==> top[i].snippet == ""
  {
    if top == [] then "" else Bullets(top[..|top| - 1]) + Finding(top[|top| - 1])
  }

  /** The findings of a concatenation are those of each part, in order: one bullet per source with a snippet, in source order. */
  lemma {:induction false} BulletsConcat(a: seq<LegacySource>, b: seq<LegacySource>)
    ensures Bullets(a + b) == Bullets(a) + Bullets(b)
    decreases |b|
  {
    if b == [] {
      assert a + b == a;
    } else {
      var b0 := b[..|b| - 1];
      var x := b[|b| - 1];
      Seqs.InitLast(b);
      Seqs.Assoc(a, b0, [x]);
      Seqs.ConcatInit(a + b0, [x]);
      BulletsConcat(a, b0);
      Seqs.Assoc(Bullets(a), Bullets(b0), Finding(x));
    }
  }

  /** A single source contributes exactly its bullet, or nothing without a snippet. */
  lemma BulletsOne(x: LegacySource)
    ensures Bullets([x]) == if x.snippet != "" then "- " + ConcisePoint(x.snippet) + "\n" else ""
  {
    assert [x][..0] == [];
  }

  /** Appending the bullet of one more source. */
  lemma FindingsStep(start: string, top: seq<LegacySource>, i: nat)
    requires i < |top|
    ensures start + Bullets(top[..i + 1]) == (start + Bullets(top[..i])) + Finding(top[i])
  {
    assert top[..i + 1][..i] == top[..i];
    ConcatAssoc(start, Bullets(top[..i]), Finding(top[i]));
  }

  /** A bullet per term, in order. */
  function TermLines(terms: seq<string>): string {
    if terms == [] then "" else TermLines(terms[..|terms| - 1]) + Bullet(terms[|terms| - 1])
  }

  lemma TermLinesSnoc(terms: seq<string>, t: string)
    ensures TermLines(terms + [t]) == TermLines(terms) + Bullet(t)
  {
    assert (terms + [t])[..|terms|] == terms;
  }

  /** The lines of a concatenation are those of each part, in order: one line per term. */
  lemma {:induction false} TermLinesConcat(a: seq<string>, b: seq<string>)
    ensures TermLines(a + b) == TermLines(a) + TermLines(b)
    decreases |b|
  {
    if b == [] {
      assert a + b == a;
    } else {
      var b0 := b[..|b| - 1];
      var t := b[|b| - 1];
      Seqs.InitLast(b);
      Seqs.Assoc(a, b0, [t]);
      TermLinesSnoc(a + b0, t);
      TermLinesSnoc(b0, t);
      TermLinesConcat(a, b0);
      Seqs.Assoc(TermLines(a), TermLines(b0), Bullet(t));
    }
  }

  /** A single term is one list line. */
  lemma TermLinesOne(t: string)
    ensures TermLines([t]) == "- " + t + "\n"
  {
    assert [t][..0] == [];
  }

  /** The "Key Concepts" section with the first five terms, present only when there is a term. */
  function Concepts(terms: seq<string>): (r: string)
    ensures r == "" <==> terms == []
    ensures r != "" ==> StartsWith(r, CONCEPTS_HEADING)
    ensures r != "" ==> r[|CONCEPTS_HEADING|..] == TermLines(Seqs.Take(terms, 5))
  {
    if terms == [] then ""
    else
      Affixes(CONCEPTS_HEADING, TermLines(Seqs.Take(terms, 5)));
      CONCEPTS_HEADING + TermLines(Seqs.Take(terms, 5))
  }

  /** The non-empty strings of `xs`, in order (`filter(Boolean)`). */
  function NonEmpty(xs: seq<string>): (r: seq<string>)
    ensures forall x :: x in r <==> x in xs && x != ""
  {
    if xs == [] then []
    else NonEmpty(xs[..|xs| - 1]) + if xs[|xs| - 1] != "" then [xs[|xs| - 1]] else []
  }

  /** The non-empty strings of a concatenation are those of each part, in order and with their repeats. */
  lemma {:induction false} NonEmptyConcat(a: seq<string>, b: seq<string>)
    ensures NonEmpty(a + b) == NonEmpty(a) + NonEmpty(b)
    decreases |b|
  {
    if b == [] {
      assert a + b == a;
    } else {
      var b0 := b[..|b| - 1];
      var x := b[|b| - 1];
      var e: seq<string> := if x != "" then [x] else [];
      Seqs.InitLast(b);
      Seqs.Assoc(a, b0, [x]);
      Seqs.ConcatInit(a + b0, [x]);
      NonEmptyConcat(a, b0);
      Seqs.Assoc(NonEmpty(a), NonEmpty(b0), e);
    }
  }

  /** The texts key terms are drawn from: the non-empty snippets, then the non-empty titles. */
  function SummaryInputs(sources: seq<LegacySource>): seq<string> {
    NonEmpty(seq(|sources|, i requires 0 <= i < |sources| => sources[i].snippet))
    + NonEmpty(seq(|sources|, i requires 0 <= i < |sources| => sources[i].title))
  }

  /** The findings and concepts between the opening and the closing paragraph. */
  function SummaryBody(query: string, sources: seq<LegacySource>): string {
    Bullets(Seqs.Take(sources, 5)) + Concepts(KeyTerms(query, SummaryInputs(sources)))
  }

  /** `generateSummaryFromSources` as a function of its inputs. */
  function SummaryText(query: string, sources: seq<LegacySource>): string {
    if sources == [] then NoInformation(query) else Framed(Opening(query), SummaryBody(query, sources), Closing(query))
  }

  /** The summary is never empty. */
  lemma SummaryNonEmpty(query: string, sources: seq<LegacySource>)
    ensures SummaryText(query, sources) != ""
  {
    if sources == [] {
      assert |NoInformation(query)| > 0;
    }
  }

  /**
   * With sources, the summary is the opening, bullets from the first five
   * sources, the key concepts, and the closing.
   */
  lemma SummaryFrame(query: string, sources: seq<LegacySource>)
    requires sources != []
    ensures StartsWith(SummaryText(query, sources), Opening(query) + Bullets(Seqs.Take(sources, 5)))
    ensures EndsWith(SummaryText(query, sources), Closing(query))
  {
    FramedStartsWith(Opening(query), Bullets(Seqs.Take(sources, 5)), Concepts(KeyTerms(query, SummaryInputs(sources))), Closing(query));
  }

  /** The summary is the opening, the findings, the key-concepts section and the closing, in that order. */
  lemma SummaryConcepts(query: string, sources: seq<LegacySource>)
    requires sources != []
    ensures SummaryText(query, sources)
      == Opening(query) + Bullets(Seqs.Take(sources, 5)) + Concepts(KeyTerms(query, SummaryInputs(sources))) + Closing(query)
  {
    var o, b, c := Opening(query), Bullets(Seqs.Take(sources, 5)), Closing(query);
    var k := Concepts(KeyTerms(query, SummaryInputs(sources)));
    Seqs.Assoc(o, b, k);
  }

  /** The findings have a bullet exactly when one of the first five sources has a snippet. */
  lemma FindingsPresent(sources: seq<LegacySource>)
    ensures Bullets(Seqs.Take(sources, 5)) == "" <==> forall i :: 0 <= i < |sources| && i < 5 ==> sources[i].snippet == ""
  {
    var top := Seqs.Take(sources, 5);
    assert forall i :: 0 <= i < |top| ==> top[i] == sources[i];
  }

  /** The `forEach` over the top sources: a bullet for each one with a snippet. */
  method AppendFindings(start: string, top: seq<LegacySource>) returns (summary: string)
    ensures summary == start + Bullets(top)
  {
    summary := start;
    for i := 0 to |top|
      invariant summary == start + Bullets(top[..i])
    {
      var x := top[i];
      FindingsStep(start, top, i);
      if x.snippet != "" {
        summary := summary + Bullet(ConcisePoint(x.snippet));
      }
    }
    assert top[..|top|] == top;
  }

  /** The `forEach` over the shown terms: a bullet for each. */
  method AppendTerms(start: string, shown: seq<string>) returns (summary: string)
    ensures summary == start + TermLines(shown)
  {
    summary := start;
    for j := 0 to |shown|
      invariant summary == start + TermLines(shown[..j])
    {
      assert shown[..j + 1] == shown[..j] + [shown[j]];
      TermLinesSnoc(shown[..j], shown[j]);
      summary := summary + Bullet(shown[j]);
    }
    assert shown[..|shown|] == shown;
  }

  /** `generateSummaryFromSources`: the summary is built up with `+=`. */
  method GenerateSummary(query: string, sources: seq<LegacySource>) returns (summary: string)
    ensures summary == SummaryText(query, sources)
  {
    if sources == [] {
      return NoInformation(query);
    }
    var keyTerms := ExtractKeyTerms(query, SummaryInputs(sources));
    var findings := AppendFindings(Opening(query), Seqs.Take(sources, 5));
    var concepts := "";
    if |keyTerms| > 0 {
      concepts := AppendTerms(CONCEPTS_HEADING, Seqs.Take(keyTerms, 5));
    }
    assert concepts == Concepts(keyTerms);
    SummaryAssembly(query, sources, findings, concepts);
    summary := findings + concepts + Closing(query);
  }

  /** The three parts the method builds make up the summary. */
  lemma SummaryAssembly(query: string, sources: seq<LegacySource>, findings: string, concepts: string)
    requires sources != []
    requires findings == Opening(query) + Bullets(Seqs.Take(sources, 5))
    requires concepts == Concepts(KeyTerms(query, SummaryInputs(sources)))
    ensures findings + concepts + Closing(query) == SummaryText(query, sources)
  {
    ConcatAssoc(Opening(query), Bullets(Seqs.Take(sources, 5)), concepts);
  }

  // ---------------------------------------------------------------------
  // conductResearch

  /** The answer: the AI-search answer, else the answer-box answer, else the generated summary. */
  function AnswerOf(query: string, ai: Option<AiReply>, web: Option<WebReply>): string {
    if ai.Some? && Truthy(ai.value.answer) then ai.value.answer.value
    else if web.Some? && Truthy(web.value.boxAnswer) then web.value.boxAnswer.value
    else SummaryText(query, Aggregate(ai, web))
  }

  /** `conductResearch` as a function of the two payloads (`None` for an adapter that threw) and the clock. */
  function ResearchOf(query: string, ai: Option<AiReply>, web: Option<WebReply>, now: string): Outcome<LegacyResearchResult> {
    if ai.None? && web.None? then Failure(ApiError(FAILED_ALL, 500, None))
    else Success(LegacyResearchResult(query, AnswerOf(query, ai, web), FilterAndSort(Aggregate(ai, web)), now))
  }

  /** The research fails, with status 500, exactly when both adapters failed. */
  lemma ResearchFailure(query: string, ai: Option<AiReply>, web: Option<WebReply>, now: string)
    ensures ResearchOf(query, ai, web, now).Failure? <==> ai.None? && web.None?
    ensures ResearchOf(query, ai, web, now).Failure? ==>
      ResearchOf(query, ai, web, now).error == ApiError(FAILED_ALL, 500, None)
  {
  }

  /**
   * A successful research result holds at most ten sources with distinct,
   * non-empty URLs in non-increasing score order, none of them the
   * knowledge-graph entry.
   */
  lemma ResearchSources(query: string, ai: Option<AiReply>, web: Option<WebReply>, now: string)
    requires ResearchOf(query, ai, web, now).Success?
    ensures var r := ResearchOf(query, ai, web, now).value;
      |r.sources| <= MAX_SOURCES && DistinctUrls(r.sources) && Seqs.SortedDesc(r.sources, Score)
      && forall i :: 0 <= i < |r.sources| ==> r.sources[i].url != "" && Score(r.sources[i]) <= AI_SCORE
  {
    var s := Aggregate(ai, web);
    FilterAndSortOrder(s);
    FilterAndSortMembers(s);
    GraphEntryDropped(ai, web);
  }

  /** The answer precedence: a non-empty AI-search answer wins, then a non-empty answer box, then the summary, which is never empty. */
  lemma AnswerPrecedence(query: string, ai: Option<AiReply>, web: Option<WebReply>)
    ensures AnswerOf(query, ai, web) != ""
    ensures ai.Some? && Truthy(ai.value.answer) ==> AnswerOf(query, ai, web) == ai.value.answer.value
    ensures !(ai.Some? && Truthy(ai.value.answer)) && web.Some? && Truthy(web.value.boxAnswer) ==>
      AnswerOf(query, ai, web) == web.value.boxAnswer.value
    ensures !(ai.Some? && Truthy(ai.value.answer)) && !(web.Some? && Truthy(web.value.boxAnswer)) ==>
      AnswerOf(query, ai, web) == SummaryText(query, Aggregate(ai, web))
  {
    SummaryNonEmpty(query, Aggregate(ai, web));
  }

  /** `conductResearch`: the sources are pushed part by part, then the answer is chosen and the sources filtered. */
  method ConductResearch(query: string, ai: Option<AiReply>, web: Option<WebReply>, now: string)
    returns (r: Outcome<LegacyResearchResult>)
    ensures r == ResearchOf(query, ai, web, now)
  {
    if ai.None? && web.None? {
      return Failure(ApiError(FAILED_ALL, 500, None));
    }
    var sources: seq<LegacySource> := [];
    if ai.Some? && ai.value.searchResults.Some? {
      sources := sources + AiSources(ai.value.searchResults.value);
    }
    if web.Some? && web.value.organic.Some? {
      sources := sources + WebSources(web.value.organic.value);
    }
    if web.Some? && web.value.knowledgeGraph.Some? {
      sources := sources + [GraphSource(web.value.knowledgeGraph.value)];
    }
    assert sources == Aggregate(ai, web);
    var answer: string;
    if ai.Some? && Truthy(ai.value.answer) {
      answer := ai.value.answer.value;
    } else if web.Some? && Truthy(web.value.boxAnswer) {
      answer := web.value.boxAnswer.value;
    } else {
      answer := GenerateSummary(query, sources);
    }
    var unique := FilterAndSortSources(sources);
    r := Success(LegacyResearchResult(query, answer, unique, now));
  }
}
