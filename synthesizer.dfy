/**
 * The synthesizer's logic around its one network call
 * (`src/lib/api/openai.ts`): the three prompt contexts with the
 * `[HIGH PRIORITY]` tag, reading the used URLs out of the answer's
 * `SOURCES USED:` section, the safety net that forces AI-search URLs in
 * when the answer used none, marking each source as used or not, and
 * turning a failed call into an `ApiError`. What the call returned is the
 * parameter `reply`.
 */
module Synthesizer {
  import opened Wrappers
  import opened Text
  import opened Types
  import Seqs
  import ApiUtils

  /** One organic web result as the orchestrator hands it over. */
  datatype Organic = Organic(title: string, link: string, snippet: string, position: int)

  /** What the completion call did: answered (with an optional message content), failed over HTTP, or threw otherwise. */
  datatype CompletionReply =
    | Completed(content: Option<string>)
    | HttpFailed(status: Option<int>, apiMessage: Option<string>, message: string)
    | OtherFailure(message: string)

  const NO_PERPLEXITY: string := "NO PERPLEXITY RESULTS AVAILABLE"
  const PERPLEXITY_HEADER: string := "PERPLEXITY SEARCH RESULTS (CRITICAL SOURCE - MUST BE PROMINENTLY FEATURED):\n"
  const ANALYSIS_HEADER: string := "\n\nPERPLEXITY AI ANALYSIS (MUST BE INCORPORATED):\n"
  const WEB_HEADER: string := "WEB SEARCH RESULTS:\n"
  const CUSTOM_HEADER: string := "CUSTOM SOURCES:\n"
  const HIGH_PRIORITY_TAG: string := " [HIGH PRIORITY]"
  const MISSING_PERPLEXITY_NOTE: string :=
    "[IMPORTANT: This answer may be missing key insights from Perplexity AI sources. Please regenerate for a more complete analysis.]\n\n"

  // ---------------------------------------------------------------------
  // The sources the synthesizer works on

  /** The web results as sources (`url: link`, `source: 'serper'`), titles backfilled. */
  function WebSources(organic: seq<Organic>): (r: seq<SearchResult>)
    ensures |r| == |organic|
    ensures forall i :: 0 <= i < |r| ==> r[i].url == Some(organic[i].link) && r[i].source == SERPER && Truthy(r[i].title)
  {
    ApiUtils.FormatSourcesWithTitles(
      seq(|organic|, i requires 0 <= i < |organic| => Source(Some(organic[i].link), Some(organic[i].title), Some(organic[i].snippet), SERPER)))
  }

  /** `allSources`: the AI-search results, the web results and the custom sources, each titled, in that order. */
  function AllSources(pp: seq<SearchResult>, organic: seq<Organic>, custom: seq<SearchResult>): (r: seq<SearchResult>)
    ensures |r| == |pp| + |organic| + |custom|
    ensures r[..|pp|] == ApiUtils.FormatSourcesWithTitles(pp)
  {
    var r := ApiUtils.FormatSourcesWithTitles(pp) + WebSources(organic) + ApiUtils.FormatSourcesWithTitles(custom);
    assert r[..|pp|] == ApiUtils.FormatSourcesWithTitles(pp);
    r
  }

  // ---------------------------------------------------------------------
  // Priority sources and the prompt contexts

  /** `source.priority === 'high' || !source.priority`. */
  predicate PriorityCandidate(s: SearchResult) {
    s.priority == Some(High) || s.priority.None?
  }

  /** The candidates, in order. */
  function Candidates(rs: seq<SearchResult>): (r: seq<SearchResult>)
    ensures |r| <= |rs|
    ensures forall k :: 0 <= k < |r| ==> PriorityCandidate(r[k]) && r[k] in rs
  {
    if rs == [] then []
    else (if PriorityCandidate(rs[0]) then [rs[0]] else []) + Candidates(rs[1..])
  }

  lemma {:induction false} CandidatesConcat(a: seq<SearchResult>, b: seq<SearchResult>)
    ensures Candidates(a + b) == Candidates(a) + Candidates(b)
    decreases |a|
  {
    if a != [] {
      assert (a + b)[0] == a[0] && (a + b)[1..] == a[1..] + b;
      CandidatesConcat(a[1..], b);
    } else {
      assert a + b == b;
    }
  }

  /** The URLs of the first three candidates (`filter(...).slice(0, Math.min(3, n)).map(s => s.url)`). */
  function PriorityUrls(rs: seq<SearchResult>): (r: seq<Option<string>>)
    ensures |r| <= 3
  {
    UrlsOf(Seqs.Take(Candidates(rs), 3))
  }

  /** A line gets the tag when its source has a URL that one of the priority sources has too. */
  predicate Tagged(rs: seq<SearchResult>, s: SearchResult) {
    Truthy(s.url) && s.url in PriorityUrls(rs)
  }

  /** A candidate with a URL that has fewer than three candidates before it is tagged. */
  lemma FirstCandidatesTagged(rs: seq<SearchResult>, i: nat)
    requires i < |rs| && PriorityCandidate(rs[i]) && Truthy(rs[i].url)
    requires |Candidates(rs[..i])| < 3
    ensures Tagged(rs, rs[i])
  {
    assert rs == rs[..i] + rs[i..];
    CandidatesConcat(rs[..i], rs[i..]);
    assert rs[i..][0] == rs[i];
    var c := |Candidates(rs[..i])|;
    assert Candidates(rs)[c] == rs[i];
    assert Seqs.Take(Candidates(rs), 3)[c] == rs[i];
    assert PriorityUrls(rs)[c] == rs[i].url;
  }

  /** A tagged line's URL is the URL of one of the first three candidates. */
  lemma TaggedIsCandidate(rs: seq<SearchResult>, s: SearchResult)
    requires Tagged(rs, s)
    ensures exists k :: 0 <= k < |Candidates(rs)| && k < 3 && Candidates(rs)[k].url == s.url
  {
    var k :| 0 <= k < |PriorityUrls(rs)| && PriorityUrls(rs)[k] == s.url;
    assert Seqs.Take(Candidates(rs), 3)[k] == Candidates(rs)[k];
  }

  /** `[n] "title" (url)`, with ` [HIGH PRIORITY]` after it when `tagged`. */
  function Header(i: nat, s: SearchResult, tagged: bool): (r: string)
    ensures StartsWith(r, "[" + NatToString(i + 1) + "] \"")
    ensures EndsWith(r, HIGH_PRIORITY_TAG) <==> tagged
  {
    var lead := "[" + NatToString(i + 1) + "] \"";
    var line := lead + OrElse(s.title, "No Title") + "\" (" + OrElse(s.url, "No URL") + ")";
    assert line[..|lead|] == lead;
    assert line[|line| - 1] == ')';
    if tagged then
      var r := line + HIGH_PRIORITY_TAG;
      assert r[..|lead|] == lead;
      assert r[|r| - |HIGH_PRIORITY_TAG|..] == HIGH_PRIORITY_TAG;
      r
    else line
  }

  /** One context entry: the header line and the text under it. */
  function Entry(i: nat, s: SearchResult, tagged: bool, body: string): string {
    Header(i, s, tagged) + "\n" + body
  }

  function PerplexityEntries(rs: seq<SearchResult>): (r: seq<string>)
    ensures |r| == |rs|
    ensures forall i :: 0 <= i < |rs| ==> r[i] == Entry(i, rs[i], Tagged(rs, rs[i]), OrElse(rs[i].snippet, ""))
  {
    seq(|rs|, i requires 0 <= i < |rs| => Entry(i, rs[i], Tagged(rs, rs[i]), OrElse(rs[i].snippet, "")))
  }

  /** The AI-search context, with the AI-search answer after it when there is one. */
  function PerplexityContext(rs: seq<SearchResult>, answer: string): (r: string)
    ensures rs == [] ==> StartsWith(r, NO_PERPLEXITY)
    ensures rs != [] ==> StartsWith(r, PERPLEXITY_HEADER + Join(PerplexityEntries(rs), "\n\n"))
    ensures answer == [] ==> r == (if rs == [] then NO_PERPLEXITY else PERPLEXITY_HEADER + Join(PerplexityEntries(rs), "\n\n"))
    ensures answer != [] ==> EndsWith(r, ANALYSIS_HEADER + answer)
  {
    var listing := if rs == [] then NO_PERPLEXITY else PERPLEXITY_HEADER + Join(PerplexityEntries(rs), "\n\n");
    if answer == [] then listing
    else
      var r := listing + (ANALYSIS_HEADER + answer);
      assert r[..|listing|] == listing;
      assert r[|listing|..] == ANALYSIS_HEADER + answer;
      r
  }

  /** One untagged entry per web result, numbered from 1, with its snippet under it. */
  function WebEntries(rs: seq<SearchResult>): (r: seq<string>)
    ensures |r| == |rs|
    ensures forall i :: 0 <= i < |rs| ==> r[i] == Entry(i, rs[i], false, OrElse(rs[i].snippet, ""))
  {
    seq(|rs|, i requires 0 <= i < |rs| => Entry(i, rs[i], false, OrElse(rs[i].snippet, "")))
  }

  /** The web context: empty when there are no web results, else the header and the entries separated by blank lines. */
  function WebContext(rs: seq<SearchResult>): (r: string)
    ensures rs == [] <==> r == []
    ensures rs != [] ==> r == WEB_HEADER + Join(WebEntries(rs), "\n\n")
  {
    if rs == [] then []
    else WEB_HEADER + Join(WebEntries(rs), "\n\n")
  }

  /** `source.content || source.snippet || ''`: custom sources prefer their full content. */
  function CustomBody(s: SearchResult): (r: string)
    ensures Truthy(s.content) ==> r == s.content.value
    ensures !Truthy(s.content) && Truthy(s.snippet) ==> r == s.snippet.value
  {
    OrElse(s.content, OrElse(s.snippet, ""))
  }

  /** One untagged entry per custom source, numbered from 1, with its full content (or snippet) under it. */
  function CustomEntries(rs: seq<SearchResult>): (r: seq<string>)
    ensures |r| == |rs|
    ensures forall i :: 0 <= i < |rs| ==> r[i] == Entry(i, rs[i], false, CustomBody(rs[i]))
  {
    seq(|rs|, i requires 0 <= i < |rs| => Entry(i, rs[i], false, CustomBody(rs[i])))
  }

  /** The custom-source context: empty when there are no custom sources, else the header and the entries separated by blank lines. */
  function CustomContext(rs: seq<SearchResult>): (r: string)
    ensures rs == [] <==> r == []
    ensures rs != [] ==> r == CUSTOM_HEADER + Join(CustomEntries(rs), "\n\n")
  {
    if rs == [] then []
    else CUSTOM_HEADER + Join(CustomEntries(rs), "\n\n")
  }

  // ---------------------------------------------------------------------
  // The `SOURCES USED:` section

  /** The case-sensitive `SOURCES\s*USED:` starts at `i`. */
  predicate MarkerAt(s: string, i: nat) {
    OccursAt(s, "SOURCES", i) && OccursAt(s, "USED:", i + 7 + RunOf(s[i + 7..], IsSpace))
  }

  /** The first index from `from` on where the marker starts. */
  function FindMarker(s: string, from: nat): (r: Option<nat>)
    requires from <= |s|
    ensures r.Some? ==> from <= r.value <= |s| && MarkerAt(s, r.value)
    ensures r.Some? ==> forall j :: from <= j < r.value ==> !MarkerAt(s, j)
    ensures r.None? ==> forall j :: from <= j <= |s| ==> !MarkerAt(s, j)
    decreases |s| - from
  {
    if MarkerAt(s, from) then Some(from)
    else if from == |s| then None
    else FindMarker(s, from + 1)
  }

  /** The index just past the marker's colon. */
  function MarkerEnd(s: string, i: nat): (e: nat)
    requires MarkerAt(s, i)
    ensures e <= |s|
  {
    i + 7 + RunOf(s[i + 7..], IsSpace) + 5
  }

  /** The lazy `([\s\S]*?)(?:\n\n|\n$|$)`: the first `k` from `from` on where a blank line, a final line break or the end follows. */
  function LazyEnd(rest: string, from: nat): (k: nat)
    requires from <= |rest|
    ensures from <= k <= |rest|
    ensures k == |rest| || OccursAt(rest, "\n\n", k) || rest[k..] == "\n"
    ensures forall j :: from <= j < k ==> !OccursAt(rest, "\n\n", j) && rest[j..] != "\n"
    decreases |rest| - from
  {
    if from == |rest| || OccursAt(rest, "\n\n", from) || rest[from..] == "\n" then from
    else LazyEnd(rest, from + 1)
  }

  /** The text captured by `/SOURCES\s*USED:([\s\S]*?)(?:\n\n|\n$|$)/`, when the marker occurs. */
  function UsedSection(content: string): (r: Option<string>)
    ensures r.Some? ==> !Contains(r.value, "\n\n")
    ensures r.None? <==> forall j :: 0 <= j <= |content| ==> !MarkerAt(content, j)
  {
    match FindMarker(content, 0)
    case None => None
    case Some(i) =>
      var rest := content[MarkerEnd(content, i)..];
      var k := LazyEnd(rest, 0);
      NoBlankLineBefore(rest, k);
      Some(rest[..k])
  }

  /** A prefix that stops before every blank line of `rest` holds none. */
  lemma NoBlankLineBefore(rest: string, k: nat)
    requires k <= |rest|
    requires forall j :: 0 <= j < k ==> !OccursAt(rest, "\n\n", j)
    ensures !Contains(rest[..k], "\n\n")
  {
    forall j | OccursAt(rest[..k], "\n\n", j) ensures false {
      assert j < k;
      assert rest[..k][j..j + 2] == rest[j..j + 2];
      assert OccursAt(rest, "\n\n", j);
    }
    assert Find(rest[..k], "\n\n").None?;
  }

  /** The marker must be upper case: text without `SOURCES` has no section. */
  lemma UsedSectionNeedsUpperCase(content: string)
    requires !Contains(content, "SOURCES")
    ensures UsedSection(content).None?
  {
  }

  /** The marker is found right after a prefix that holds no `S`. */
  lemma MarkerAfter(pre: string, rest: string)
    requires 'S' !in pre
    ensures var content := pre + "SOURCES USED:" + rest;
      FindMarker(content, 0) == Some(|pre|) && MarkerEnd(content, |pre|) == |pre| + 13
  {
    var t := "SOURCES USED:" + rest;
    assert pre + "SOURCES USED:" + rest == pre + t;
    NoMarkerInPrefix(pre, t);
    MarkerAtFront(rest);
    MarkerShifted(pre, t);
    FirstMarker(pre + t, |pre|);
  }

  /** No marker starts inside a prefix without `S`. */
  lemma NoMarkerInPrefix(pre: string, t: string)
    requires 'S' !in pre
    ensures forall j :: 0 <= j < |pre| ==> !MarkerAt(pre + t, j)
  {
    forall j | 0 <= j < |pre| ensures !MarkerAt(pre + t, j) {
      assert (pre + t)[j] == pre[j];
    }
  }

  /** The marker spelt without extra spaces starts the text and spans 13 characters. */
  lemma MarkerAtFront(rest: string)
    ensures var t := "SOURCES USED:" + rest; MarkerAt(t, 0) && MarkerEnd(t, 0) == 13
  {
    var t := "SOURCES USED:" + rest;
    assert t[..7] == "SOURCES";
    assert t[7..] == " USED:" + rest;
    RunOfExact(t[7..], IsSpace, 1);
    assert t[8..13] == "USED:";
  }

  /** A marker at the start of `t` stays a marker, with the same length, after a prefix. */
  lemma MarkerShifted(pre: string, t: string)
    requires MarkerAt(t, 0)
    ensures MarkerAt(pre + t, |pre|) && MarkerEnd(pre + t, |pre|) == |pre| + MarkerEnd(t, 0)
  {
    var s := pre + t;
    var i := |pre|;
    assert s[i + 7..] == t[7..];
    var k := 7 + RunOf(t[7..], IsSpace);
    assert s[i..i + 7] == t[..7];
    assert s[i + k..i + k + 5] == t[k..k + 5];
  }

  /** A marker with none before it is the one found. */
  lemma FirstMarker(s: string, i: nat)
    requires i <= |s| && MarkerAt(s, i)
    requires forall j :: 0 <= j < i ==> !MarkerAt(s, j)
    ensures FindMarker(s, 0) == Some(i)
  {
  }

  /** The lazy match over `body + "\n\n" + later` stops right after `body`. */
  lemma LazyEndAtBlankLine(body: string, later: string)
    requires !Contains(body, "\n\n") && (body == [] || body[|body| - 1] != '\n')
    ensures LazyEnd(body + "\n\n" + later, 0) == |body|
  {
    var rest := body + "\n\n" + later;
    forall j | 0 <= j < |body| ensures !OccursAt(rest, "\n\n", j) && rest[j..] != "\n" {
      assert |rest[j..]| >= 2;
      if j + 1 < |body| {
        assert rest[j..j + 2] == body[j..j + 2];
        assert !OccursAt(body, "\n\n", j);
      } else {
        assert rest[j] == body[j];
      }
    }
    assert rest[|body|..|body| + 2] == "\n\n";
    assert OccursAt(rest, "\n\n", |body|);
  }

  /** The section ends at the first blank line, so later blank-separated subsections are not read. */
  lemma UsedSectionStopsAtBlankLine(pre: string, body: string, later: string)
    requires 'S' !in pre
    requires !Contains(body, "\n\n") && (body == [] || body[|body| - 1] != '\n')
    ensures UsedSection(pre + "SOURCES USED:" + body + "\n\n" + later) == Some(body)
  {
    var rest := body + "\n\n" + later;
    var content := pre + "SOURCES USED:" + rest;
    ConcatAssoc(body, "\n\n", later);
    ConcatAssoc(pre + "SOURCES USED:", body, "\n\n" + later);
    ConcatAssoc(pre + "SOURCES USED:" + body, "\n\n", later);
    MarkerAfter(pre, rest);
    DropPrefix(pre + "SOURCES USED:", rest);
    LazyEndAtBlankLine(body, later);
    DropPrefix(body, "\n\n" + later);
    UsedSectionAt(content, |pre|);
  }

  /** The section read from the first marker. */
  lemma UsedSectionAt(content: string, i: nat)
    requires i <= |content| && MarkerAt(content, i) && FindMarker(content, 0) == Some(i)
    ensures var rest := content[MarkerEnd(content, i)..];
      UsedSection(content) == Some(rest[..LazyEnd(rest, 0)])
  {
  }

  /** The text inside the first `(...)` with something in it: the group of `/\(([^)]+)\)/`. */
  function ParenUrl(line: string): (r: Option<string>)
    ensures r.Some? ==> r.value != [] && ')' !in r.value
    decreases |line|
  {
    if line == [] then None
    else if line[0] == '(' then
      match IndexOfChar(line[1..], ')')
      case None => None
      case Some(q) => if q > 0 then Some(line[1..][..q]) else ParenUrl(line[1..])
    else ParenUrl(line[1..])
  }

  /** A listed source line `… (url)` yields its URL when nothing before it opens a parenthesis. */
  lemma ParenUrlOfListing(pre: string, url: string, post: string)
    requires '(' !in pre && url != [] && ')' !in url
    ensures ParenUrl(pre + "(" + url + ")" + post) == Some(url)
    decreases |pre|
  {
    var line := pre + "(" + url + ")" + post;
    if pre == [] {
      assert line[1..] == url + ")" + post;
      assert IndexOfChar(line[1..], ')') == Some(|url|) by {
        assert line[1..][|url|] == ')';
        assert line[1..][..|url|] == url;
      }
      assert line[1..][..|url|] == url;
    } else {
      assert line[0] == pre[0];
      assert line[1..] == pre[1..] + "(" + url + ")" + post;
      ParenUrlOfListing(pre[1..], url, post);
    }
  }

  /** The URLs the scanned lines contribute, at most one per line. */
  function UrlsInLines(lines: seq<string>): (r: seq<Option<string>>)
    ensures |r| <= |lines|
    ensures forall k :: 0 <= k < |r| ==> r[k].Some? && r[k].value != [] && ')' !in r[k].value
  {
    if lines == [] then []
    else
      UrlsInLines(lines[..|lines| - 1])
        + (match ParenUrl(lines[|lines| - 1]) case Some(u) => [Some(u)] case None => [])
  }

  /** Every URL collected comes from one of the lines, in the lines' order. */
  lemma {:induction false} UrlsInLinesSound(lines: seq<string>, k: nat)
    requires k < |UrlsInLines(lines)|
    ensures exists j :: 0 <= j < |lines| && ParenUrl(lines[j]) == UrlsInLines(lines)[k]
  {
    var init := lines[..|lines| - 1];
    var last := lines[|lines| - 1];
    if k < |UrlsInLines(init)| {
      UrlsInLinesSound(init, k);
      var j :| 0 <= j < |init| && ParenUrl(init[j]) == UrlsInLines(init)[k];
      assert lines[j] == init[j];
    } else {
      assert ParenUrl(last).Some?;
      assert UrlsInLines(lines)[k] == ParenUrl(last);
    }
  }

  /** No line's URL is missed: every line with a `(...)` contributes its URL. */
  lemma {:induction false} UrlsInLinesComplete(lines: seq<string>, j: nat)
    requires j < |lines| && ParenUrl(lines[j]).Some?
    ensures ParenUrl(lines[j]) in UrlsInLines(lines)
  {
    var init := lines[..|lines| - 1];
    if j < |init| {
      assert lines[j] == init[j];
      UrlsInLinesComplete(init, j);
    }
  }

  /** `sourcesSection[1].split('\n').forEach(item => { ... push(urlMatch[1]) })`. */
  method ScanSection(section: string) returns (urls: seq<Option<string>>)
    ensures urls == UrlsInLines(Split(section, '\n'))
  {
    var lines := Split(section, '\n');
    urls := [];
    var k := 0;
    while k < |lines|
      invariant 0 <= k <= |lines|
      invariant urls == UrlsInLines(lines[..k])
    {
      assert lines[..k + 1][..k] == lines[..k];
      match ParenUrl(lines[k]) {
        case Some(u) => urls := urls + [Some(u)];
        case None =>
      }
      k := k + 1;
    }
    assert lines[..|lines|] == lines;
  }

  /** The URLs read from the section, or, without a section, the URL of every source. */
  function ListedUrls(content: string, all: seq<SearchResult>): (r: seq<Option<string>>)
    ensures UsedSection(content).None? ==> r == UrlsOf(all)
    ensures UsedSection(content).Some? ==> r == UrlsInLines(Split(UsedSection(content).value, '\n'))
  {
    match UsedSection(content)
    case Some(section) => UrlsInLines(Split(section, '\n'))
    case None => UrlsOf(all)
  }

  /** `perplexityResults.filter(s => s.url && used.includes(s.url)).length`. */
  function CountUsed(pp: seq<SearchResult>, used: seq<Option<string>>): (n: nat)
    ensures n <= |pp|
    ensures n == 0 <==> forall k :: 0 <= k < |pp| ==> !(Truthy(pp[k].url) && pp[k].url in used)
  {
    if pp == [] then 0
    else
      var rest := CountUsed(pp[1..], used);
      assert forall k :: 1 <= k < |pp| ==> pp[k] == pp[1..][k - 1];
      (if Truthy(pp[0].url) && pp[0].url in used then 1 else 0) + rest
  }

  /** The safety net fires: there are AI-search results and the answer used none of them. */
  predicate NeedsSafetyNet(pp: seq<SearchResult>, listed: seq<Option<string>>) {
    |pp| > 0 && CountUsed(pp, listed) == 0
  }

  /** The used URLs after the safety net, which appends the first two AI-search URLs when it fires. */
  function UsedUrls(content: string, pp: seq<SearchResult>, all: seq<SearchResult>): (r: seq<Option<string>>)
    ensures var listed := ListedUrls(content, all);
      r == if NeedsSafetyNet(pp, listed) then listed + UrlsOf(Seqs.Take(pp, 2)) else listed
  {
    var listed := ListedUrls(content, all);
    if NeedsSafetyNet(pp, listed) then listed + UrlsOf(Seqs.Take(pp, 2)) else listed
  }

  /**
   * The used URLs as the source computes them: the section's lines are
   * scanned in a loop, or every source's URL is taken; then the safety net
   * may append the first two AI-search URLs.
   */
  method CollectUsedUrls(content: string, pp: seq<SearchResult>, all: seq<SearchResult>) returns (used: seq<Option<string>>)
    ensures used == UsedUrls(content, pp, all)
  {
    var section := UsedSection(content);
    if section.Some? {
      used := ScanSection(section.value);
    } else {
      used := UrlsOf(all);
    }
    if CountUsed(pp, used) == 0 && |pp| > 0 {
      used := used + UrlsOf(Seqs.Take(pp, 2));
    }
  }

  /** Each source with `used` set: true exactly when it has a URL and that URL is among the used ones. */
  function MarkUsed(all: seq<SearchResult>, used: seq<Option<string>>): (r: seq<SearchResult>)
    ensures |r| == |all|
    ensures forall i :: 0 <= i < |r| ==> r[i] == all[i].(used := Some(Truthy(all[i].url) && all[i].url in used))
  {
    seq(|all|, i requires 0 <= i < |all| => all[i].(used := Some(Truthy(all[i].url) && all[i].url in used)))
  }

  /** What a successful call returns, given the message content (`content || ''`). */
  function Answered(query: string, pp: seq<SearchResult>, organic: seq<Organic>, custom: seq<SearchResult>, content: string): (r: OpenAIResponse)
    ensures r.query == query
    ensures r.usedSourceUrls == UsedUrls(content, ApiUtils.FormatSourcesWithTitles(pp), AllSources(pp, organic, custom))
    ensures r.searchResults == MarkUsed(AllSources(pp, organic, custom), r.usedSourceUrls)
    ensures r.answer == if NeedsSafetyNet(ApiUtils.FormatSourcesWithTitles(pp), ListedUrls(content, AllSources(pp, organic, custom)))
      then MISSING_PERPLEXITY_NOTE + content else content
  {
    var titled := ApiUtils.FormatSourcesWithTitles(pp);
    var all := AllSources(pp, organic, custom);
    var used := UsedUrls(content, titled, all);
    var answer := if NeedsSafetyNet(titled, ListedUrls(content, all)) then MISSING_PERPLEXITY_NOTE + content else content;
    OpenAIResponse(answer, query, MarkUsed(all, used), used)
  }

  const OPENAI: string := "openai"

  /** The error thrown for a failed call: the HTTP status when there is one (else 500) and the API's message when there is one. */
  function CallError(reply: CompletionReply): (e: ApiError)
    requires !reply.Completed?
    ensures e.source == Some(OPENAI)
    ensures reply.HttpFailed? ==> e.message == "OpenAI API error: " + (if Truthy(reply.apiMessage) then reply.apiMessage.value else reply.message)
    ensures reply.OtherFailure? ==> e.message == "Error summarizing with OpenAI: " + reply.message
    ensures reply.HttpFailed? && reply.status.Some? && reply.status.value != 0 ==> e.statusCode == reply.status.value
    ensures !(reply.HttpFailed? && reply.status.Some? && reply.status.value != 0) ==> e.statusCode == 500
  {
    match reply
    case HttpFailed(status, apiMessage, message) =>
      ApiError("OpenAI API error: " + OrElse(apiMessage, message),
        if status.Some? && status.value != 0 then status.value else 500, Some(OPENAI))
    case OtherFailure(message) =>
      ApiError("Error summarizing with OpenAI: " + message, 500, Some(OPENAI))
  }

  /** `summarizeWithOpenAI`: the answer and marked sources, or the mapped error. */
  function Summarize(query: string, pp: seq<SearchResult>, organic: seq<Organic>, custom: seq<SearchResult>, reply: CompletionReply): (r: Outcome<OpenAIResponse>)
    ensures reply.Completed? <==> r.Success?
    ensures r.Failure? ==> r.error.source == Some(OPENAI)
  {
    match reply
    case Completed(content) => Success(Answered(query, pp, organic, custom, OrElse(content, "")))
    case _ => Failure(CallError(reply))
  }

  /** The same steps as the source takes them, the used-URL list built up and reassigned. */
  method SummarizeWithOpenAI(query: string, pp: seq<SearchResult>, organic: seq<Organic>, custom: seq<SearchResult>, reply: CompletionReply)
    returns (r: Outcome<OpenAIResponse>)
    ensures r == Summarize(query, pp, organic, custom, reply)
  {
    if !reply.Completed? {
      return Failure(CallError(reply));
    }
    var content := OrElse(reply.content, "");
    var titled := ApiUtils.FormatSourcesWithTitles(pp);
    var all := AllSources(pp, organic, custom);
    var used := CollectUsedUrls(content, titled, all);
    var answer := content;
    if CountUsed(titled, ListedUrls(content, all)) == 0 && |titled| > 0 {
      answer := MISSING_PERPLEXITY_NOTE + content;
    }
    r := Success(OpenAIResponse(answer, query, MarkUsed(all, used), used));
  }

  // ---------------------------------------------------------------------
  // What the result promises

  /** Without a section, every source that has a URL is marked used. */
  lemma NoSectionMarksAllUsed(query: string, pp: seq<SearchResult>, organic: seq<Organic>, custom: seq<SearchResult>, content: string)
    requires UsedSection(content).None?
    ensures var r := Answered(query, pp, organic, custom, content);
      forall i :: 0 <= i < |r.searchResults| ==> (r.searchResults[i].used == Some(true) <==> Truthy(r.searchResults[i].url))
  {
    var all := AllSources(pp, organic, custom);
    var r := Answered(query, pp, organic, custom, content);
    forall i | 0 <= i < |r.searchResults| ensures r.searchResults[i].used == Some(true) <==> Truthy(r.searchResults[i].url) {
      assert UrlsOf(all)[i] == all[i].url;
      assert all[i].url in r.usedSourceUrls;
    }
  }

  /**
   * When there are AI-search results and the first has a URL, the result
   * marks at least one AI-search source as used: the safety net adds it when
   * the answer listed none.
   */
  lemma SafetyNetKeepsPerplexity(query: string, pp: seq<SearchResult>, organic: seq<Organic>, custom: seq<SearchResult>, content: string)
    requires |pp| > 0 && Truthy(pp[0].url)
    ensures var r := Answered(query, pp, organic, custom, content);
      exists i :: 0 <= i < |pp| && r.searchResults[i].used == Some(true)
  {
    var titled := ApiUtils.FormatSourcesWithTitles(pp);
    var all := AllSources(pp, organic, custom);
    var listed := ListedUrls(content, all);
    var r := Answered(query, pp, organic, custom, content);
    assert all[..|pp|] == titled;
    assert forall i :: 0 <= i < |pp| ==> all[i] == titled[i] by {
      forall i | 0 <= i < |pp| ensures all[i] == titled[i] {
        assert all[..|pp|][i] == all[i];
      }
    }
    if NeedsSafetyNet(titled, listed) {
      assert titled[0].url == pp[0].url;
      assert UrlsOf(Seqs.Take(titled, 2))[0] == titled[0].url;
      assert titled[0].url in r.usedSourceUrls;
      assert r.searchResults[0].used == Some(true);
    } else {
      var k :| 0 <= k < |titled| && Truthy(titled[k].url) && titled[k].url in listed;
      assert r.searchResults[k].used == Some(true);
    }
  }

  /** The warning is added exactly when the safety net fires, and otherwise the answer is the content as it came. */
  lemma WarningOnlyWithSafetyNet(query: string, pp: seq<SearchResult>, organic: seq<Organic>, custom: seq<SearchResult>, content: string)
    ensures var r := Answered(query, pp, organic, custom, content);
      (r.answer == content) || (|pp| > 0 && r.answer == MISSING_PERPLEXITY_NOTE + content
        && forall k :: 0 <= k < |pp| ==> !(Truthy(pp[k].url) && pp[k].url in ListedUrls(content, AllSources(pp, organic, custom))))
  {
    var titled := ApiUtils.FormatSourcesWithTitles(pp);
    forall k | 0 <= k < |pp| ensures titled[k].url == pp[k].url {
    }
  }
}
