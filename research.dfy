/**
 * The research orchestrator (`src/lib/api/research.ts`): it gathers the
 * custom sources, the AI-search results and the web results, each adapter's
 * failure caught on its own; concatenates them into one pool; asks the
 * synthesizer for an answer, falling back to the AI-search answer; marks
 * the used sources; prefixes a note when the used source types are out of
 * balance; and formats the answer as markdown.
 *
 * What each call returned is part of the environment `Env`; an API key is a
 * flag saying whether it is configured; the clock's reading is `now`.
 */
module Research {
  import opened Wrappers
  import opened Text
  import opened Types
  import CustomSources
  import Perplexity
  import Synthesizer
  import Markdown
  import Seqs

  /** One organic web result as the web search returns it (`SerperSearchResult`). */
  datatype WebItem = WebItem(title: Option<string>, link: string, snippet: Option<string>, position: Option<int>)

  /**
   * What the web search did: returned its organic list (a `null` entry in
   * the JSON is `None`), or threw. It throws a plain object, not an `Error`.
   */
  datatype WebCall = WebReturned(organic: seq<Option<WebItem>>) | WebThrew

  /** What `summarizeWithOpenAI(query, …)` returns for the AI-search results, the web results and the custom sources. */
  type Summarizer = (seq<SearchResult>, seq<Synthesizer.Organic>, seq<SearchResult>) -> Outcome<OpenAIResponse>

  /**
   * The configuration and what each collaborator returned: the custom
   * batch, the AI-search response, the web search, and the synthesizer as
   * a function of its inputs.
   */
  datatype Env = Env(
    perplexityKey: bool,
    serperKey: bool,
    openaiKey: bool,
    customBatch: CustomSources.CustomBatch,
    perplexity: PerplexityResponse,
    web: WebCall,
    summarize: Summarizer,
    now: string)

  /** The result and the error notes gathered on the way (they are logged, not returned, by the source). */
  datatype Run = Run(result: ResearchResult, errors: seq<string>)

  const CUSTOM_WARNING: string := "Custom sources warning: "
  const SERPER_ERROR: string := "Serper search error: "
  const OPENAI_ERROR: string := "OpenAI summary error: "
  /** `String(error)` of a thrown plain object. */
  const OBJECT_TEXT: string := "[object Object]"
  const NO_OPENAI_KEY: string := "OpenAI API key not configured"
  /** The engine's message when a `null` organic entry is read. */
  const NULL_ENTRY: string := "Cannot read properties of null (reading 'link')"
  const NO_RESULTS: string := "No search results found from any source. Please try a different query."
  const NO_ANSWER: string := "Failed to generate an answer from any source. Please try again or refine your query."
  const FALLBACK_PREFIX: string := "(OpenAI summarization failed, showing Perplexity answer as fallback)\n\n"
  const UNEXPECTED: string := "An error occurred while researching: "

  // ---------------------------------------------------------------------
  // Gathering

  /** The custom batch, fetched only when URLs were given. */
  function CustomStage(urls: seq<string>, env: Env): (b: CustomSources.CustomBatch)
    ensures urls == [] ==> b == CustomSources.CustomBatch([], None)
    ensures urls != [] ==> b == env.customBatch
  {
    if urls == [] then CustomSources.CustomBatch([], None) else env.customBatch
  }

  /** The AI-search response, asked for only when its key is configured. */
  function PerplexityStage(env: Env): (r: Option<PerplexityResponse>)
    ensures r.Some? <==> env.perplexityKey
    ensures r.Some? ==> r.value == env.perplexity
  {
    if env.perplexityKey then Some(env.perplexity) else None
  }

  /** The AI-search results, none when there was no response (`perplexityResponse || { results: [] }`). */
  function ResultsOf(r: Option<PerplexityResponse>): seq<SearchResult> {
    if r.Some? then r.value.results else []
  }

  /** The organic entries, none when the key is missing or the call threw. */
  function WebStage(env: Env): (entries: seq<Option<WebItem>>)
    ensures !env.serperKey || env.web.WebThrew? ==> entries == []
    ensures env.serperKey && env.web.WebReturned? ==> entries == env.web.organic
  {
    if env.serperKey && env.web.WebReturned? then env.web.organic else []
  }

  /** The organic entries when none of them is `null`. */
  function WebItems(entries: seq<Option<WebItem>>): (r: Option<seq<WebItem>>)
    ensures r.Some? <==> forall k :: 0 <= k < |entries| ==> entries[k].Some?
    ensures r.Some? ==> |r.value| == |entries| && forall k :: 0 <= k < |entries| ==> entries[k] == Some(r.value[k])
  {
    if entries == [] then Some([])
    else if entries[0].None? then None
    else
      match WebItems(entries[1..])
      case None => None
      case Some(rest) => Some([entries[0].value] + rest)
  }

  /** A web result as a pool entry: `url: link`, `source: 'serper'`, `used: false`. */
  function WebSource(item: WebItem): (s: SearchResult)
    ensures s.url == Some(item.link) && s.title == item.title && s.snippet == item.snippet
    ensures s.source == SERPER && s.used == Some(false)
  {
    SearchResult(Some(item.link), item.title, None, item.snippet, SERPER, None, None, Some(false), None)
  }

  /** The pool: AI-search results, then web results, then custom sources, with nothing removed. */
  function Pool(pp: seq<SearchResult>, items: seq<WebItem>, custom: seq<SearchResult>): (r: seq<SearchResult>)
    ensures |r| == |pp| + |items| + |custom|
    ensures forall i :: 0 <= i < |pp| ==> r[i] == pp[i]
    ensures forall i :: 0 <= i < |items| ==> r[|pp| + i] == WebSource(items[i])
    ensures forall i :: 0 <= i < |custom| ==> r[|pp| + |items| + i] == custom[i]
  {
    pp + WebSources(items) + custom
  }

  /** `organicResults.map(...)`: one web result per entry, in order. */
  function WebSources(items: seq<WebItem>): (r: seq<SearchResult>)
    ensures |r| == |items| && forall i :: 0 <= i < |items| ==> r[i] == WebSource(items[i])
  {
    seq(|items|, i requires 0 <= i < |items| => WebSource(items[i]))
  }

  /** The web results as the synthesizer takes them: `title || 'Untitled'`, `snippet || ''`, `position || 0`. */
  function ForSynthesis(items: seq<WebItem>): (r: seq<Synthesizer.Organic>)
    ensures |r| == |items|
    ensures forall i :: 0 <= i < |items| ==>
      r[i].link == items[i].link && r[i].title == OrElse(items[i].title, "Untitled") && r[i].snippet == OrElse(items[i].snippet, "")
  {
    seq(|items|, i requires 0 <= i < |items| =>
      Synthesizer.Organic(OrElse(items[i].title, "Untitled"), items[i].link, OrElse(items[i].snippet, ""),
        if items[i].position.Some? then items[i].position.value else 0))
  }

  // ---------------------------------------------------------------------
  // The balance audit

  /** How many sources of one type were used. */
  function UsedOfType(rs: seq<SearchResult>, tag: string): (n: nat)
    ensures n <= |rs|
  {
    if rs == [] then 0
    else (if rs[0].source == tag && rs[0].used == Some(true) then 1 else 0) + UsedOfType(rs[1..], tag)
  }

  /** No source of the type is used exactly when the count is zero. */
  lemma {:induction false} UsedOfTypeZero(rs: seq<SearchResult>, tag: string)
    ensures UsedOfType(rs, tag) == 0 <==> forall i :: 0 <= i < |rs| ==> !(rs[i].source == tag && rs[i].used == Some(true))
  {
    if rs != [] {
      UsedOfTypeZero(rs[1..], tag);
      assert forall i :: 1 <= i < |rs| ==> rs[i] == rs[1..][i - 1];
    }
  }

  /** The count adds up over a concatenation: each used source of the type counts once, wherever it stands. */
  lemma {:induction false} UsedOfTypeConcat(a: seq<SearchResult>, b: seq<SearchResult>, tag: string)
    ensures UsedOfType(a + b, tag) == UsedOfType(a, tag) + UsedOfType(b, tag)
  {
    if a != [] {
      assert (a + b)[1..] == a[1..] + b;
      UsedOfTypeConcat(a[1..], b, tag);
    } else {
      assert a + b == b;
    }
  }

  /** One source counts one exactly when it is of the type and marked used. */
  lemma UsedOfTypeOne(s: SearchResult, tag: string)
    ensures UsedOfType([s], tag) == if s.source == tag && s.used == Some(true) then 1 else 0
  {
    assert [s][1..] == [];
  }

  /** `a / b` in whole numbers, by repeated subtraction. */
  function Quotient(a: nat, b: nat): nat
    requires b > 0
    decreases a
  {
    if a < b then 0 else 1 + Quotient(a - b, b)
  }

  /** The quotient is the largest `q` with `b * q <= a`. */
  lemma {:induction false} QuotientBounds(a: nat, b: nat)
    requires b > 0
    ensures b * Quotient(a, b) <= a < b * Quotient(a, b) + b
    decreases a
  {
    if a >= b {
      QuotientBounds(a - b, b);
      assert b * Quotient(a, b) == b * Quotient(a - b, b) + b;
    }
  }

  /** `Math.round(100 * c / t)` in whole numbers; `PercentRounds` says what it means. */
  function Percent(c: nat, t: nat): nat
    requires t > 0
  {
    Quotient(200 * c + t, 2 * t)
  }

  /** The percentage is the nearest whole number to `100 * c / t`, halves rounded up. */
  lemma PercentRounds(c: nat, t: nat)
    requires t > 0
    ensures 2 * t * Percent(c, t) <= 200 * c + t < 2 * t * Percent(c, t) + 2 * t
  {
    QuotientBounds(200 * c + t, 2 * t);
  }

  /** The rounding bounds pin the percentage down. */
  lemma PercentUnique(c: nat, t: nat, p: nat)
    requires t > 0 && 2 * t * p <= 200 * c + t < 2 * t * p + 2 * t
    ensures Percent(c, t) == p
  {
    var q := Percent(c, t);
    var m := 2 * t;
    PercentRounds(c, t);
    assert m * q <= 200 * c + t < m * q + m;
    assert m * p <= 200 * c + t < m * p + m;
    if q < p {
      MulMono(m, q + 1, p);
      MulSucc(m, q);
    } else if q > p {
      MulMono(m, p + 1, q);
      MulSucc(m, p);
    }
  }

  lemma MulMono(a: nat, x: nat, y: nat)
    requires x <= y
    ensures a * x <= a * y
  {
  }

  lemma MulSucc(a: nat, x: nat)
    ensures a * (x + 1) == a * x + a
  {
  }

  /** Half of the used sources is 50%. */
  lemma PercentOfHalf(n: nat)
    requires n > 0
    ensures Percent(n, 2 * n) == 50
  {
    PercentUnique(n, 2 * n, 50);
  }

  /** A third of the used sources is 33%. */
  lemma PercentOfThird(n: nat)
    requires n > 0
    ensures Percent(n, 3 * n) == 33
  {
    PercentUnique(n, 3 * n, 33);
  }

  /** None of the used sources is 0%. */
  lemma PercentOfNone(t: nat)
    requires t > 0
    ensures Percent(0, t) == 0
  {
    PercentUnique(0, t, 0);
  }

  /** All of the used sources is 100%. */
  lemma PercentOfAll(t: nat)
    requires t > 0
    ensures Percent(t, t) == 100
  {
    PercentUnique(t, t, 100);
  }

  /** The counts of used sources per type, with the target share. */
  datatype Shares = Shares(perplexity: nat, web: nat, custom: nat, target: nat)

  const THRESHOLD: nat := 10

  /** How many sources of the three types were used. */
  function UsedTotal(rs: seq<SearchResult>): nat {
    UsedOfType(rs, PERPLEXITY) + UsedOfType(rs, SERPER) + UsedOfType(rs, CUSTOM)
  }

  /** The shares, when anything was used: percentages of the total, target 33 with custom sources and 50 without. */
  function SharesOf(rs: seq<SearchResult>, hasCustom: bool): (r: Option<Shares>)
    ensures var t := UsedOfType(rs, PERPLEXITY) + UsedOfType(rs, SERPER) + UsedOfType(rs, CUSTOM);
      r.None? <==> t == 0
    ensures r.Some? ==> r.value.target == if hasCustom then 33 else 50
    ensures r.Some? ==> r.value.perplexity == Percent(UsedOfType(rs, PERPLEXITY), UsedTotal(rs))
    ensures r.Some? ==> r.value.web == Percent(UsedOfType(rs, SERPER), UsedTotal(rs))
    ensures r.Some? ==> r.value.custom == Percent(UsedOfType(rs, CUSTOM), UsedTotal(rs))
  {
    var p := UsedOfType(rs, PERPLEXITY);
    var w := UsedOfType(rs, SERPER);
    var c := UsedOfType(rs, CUSTOM);
    var t := p + w + c;
    if t == 0 then None
    else Some(Shares(Percent(p, t), Percent(w, t), Percent(c, t), if hasCustom then 33 else 50))
  }

  predicate Balanced(pct: nat, target: nat) {
    -(THRESHOLD as int) <= pct - target <= THRESHOLD
  }

  /** Every type is within the threshold of the target; custom sources only count when some were fetched. */
  predicate AllBalanced(sh: Shares, hasCustom: bool) {
    Balanced(sh.perplexity, sh.target) && Balanced(sh.web, sh.target) && (!hasCustom || Balanced(sh.custom, sh.target))
  }

  const UNDER: string := "underrepresented"
  const OVER: string := "overrepresented"
  const NOTE_HEAD: string := "[NOTE: This answer may not have equal representation from all source types. "
  const NOTE_TAIL: string := "]\n\n"

  function Direction(pct: nat, target: nat): string {
    if pct < target then UNDER else OVER
  }

  /** `<kind> sources (<pct>%) are <direction>.` followed by `sep`. */
  function Assessment(kind: string, pct: nat, target: nat, sep: string): string {
    kind + " sources (" + NatToString(pct) + "%) are " + Direction(pct, target) + "." + sep
  }

  /** The sentence for an unbalanced AI-search share. */
  function PerplexityPart(sh: Shares): string {
    if Balanced(sh.perplexity, sh.target) then [] else Assessment("Perplexity", sh.perplexity, sh.target, " ")
  }

  /** The sentence for an unbalanced web share. */
  function WebPart(sh: Shares): string {
    if Balanced(sh.web, sh.target) then [] else Assessment("Web search", sh.web, sh.target, " ")
  }

  /** The sentences for the unbalanced AI-search and web shares, in that order. */
  function Leading(sh: Shares): string {
    PerplexityPart(sh) + WebPart(sh)
  }

  /** The sentence for an unbalanced custom share, when custom sources were fetched. */
  function CustomPart(sh: Shares, hasCustom: bool): string {
    if hasCustom && !Balanced(sh.custom, sh.target) then Assessment("Custom", sh.custom, sh.target, "") else []
  }

  /** The answer behind the note naming every unbalanced type, or as it was when all are balanced. */
  function Noted(answer: string, sh: Shares, hasCustom: bool): (r: string)
    ensures AllBalanced(sh, hasCustom) ==> r == answer
    ensures !AllBalanced(sh, hasCustom) ==> StartsWith(r, NOTE_HEAD) && EndsWith(r, NOTE_TAIL + answer) && |r| > |answer|
  {
    if AllBalanced(sh, hasCustom) then answer
    else Framed(NOTE_HEAD, Leading(sh) + CustomPart(sh, hasCustom), NOTE_TAIL + answer)
  }

  /** The sentence a note holds for one type: over when more than 10 points above the target, under when more than 10 below, nothing otherwise. */
  function Verdict(kind: string, pct: nat, target: nat, sep: string): string {
    if pct > target + 10 then kind + " sources (" + NatToString(pct) + "%) are " + OVER + "." + sep
    else if pct + 10 < target then kind + " sources (" + NatToString(pct) + "%) are " + UNDER + "." + sep
    else []
  }

  /**
   * The note names every type more than 10 points off the target, with its
   * share and direction, in the order AI search, web, custom, and names no
   * balanced type; custom sources are judged only when some were fetched.
   */
  lemma NoteSentences(answer: string, sh: Shares, hasCustom: bool)
    requires !AllBalanced(sh, hasCustom)
    ensures Noted(answer, sh, hasCustom) == NOTE_HEAD
      + Verdict("Perplexity", sh.perplexity, sh.target, " ")
      + Verdict("Web search", sh.web, sh.target, " ")
      + (if hasCustom then Verdict("Custom", sh.custom, sh.target, "") else [])
      + NOTE_TAIL + answer
  {
    PartIsVerdict("Perplexity", sh.perplexity, sh.target, " ");
    PartIsVerdict("Web search", sh.web, sh.target, " ");
    PartIsVerdict("Custom", sh.custom, sh.target, "");
    var p, w, c := PerplexityPart(sh), WebPart(sh), CustomPart(sh, hasCustom);
    var x := NOTE_HEAD + p + w + c;
    assert Noted(answer, sh, hasCustom) == NOTE_HEAD + (p + w + c) + (NOTE_TAIL + answer);
    Seqs.Assoc(NOTE_HEAD + p, w, c);
    Seqs.Assoc(NOTE_HEAD, p, w + c);
    Seqs.Assoc(p, w, c);
    Seqs.Assoc(x, NOTE_TAIL, answer);
  }

  /** A type's sentence, when it is out of balance, is its verdict. */
  lemma PartIsVerdict(kind: string, pct: nat, target: nat, sep: string)
    ensures (if Balanced(pct, target) then [] else Assessment(kind, pct, target, sep)) == Verdict(kind, pct, target, sep)
  {
  }

  /** The answer with the imbalance note in front of it when some used type is out of balance. */
  function WithBalanceNote(answer: string, rs: seq<SearchResult>, hasCustom: bool): (r: string)
    ensures r == answer || (StartsWith(r, NOTE_HEAD) && EndsWith(r, NOTE_TAIL + answer))
    ensures r != answer <==> SharesOf(rs, hasCustom).Some? && !AllBalanced(SharesOf(rs, hasCustom).value, hasCustom)
  {
    match SharesOf(rs, hasCustom)
    case None => answer
    case Some(sh) => Noted(answer, sh, hasCustom)
  }

  /** The audit as the source runs it: the note assembled sentence by sentence. */
  method NoteImbalance(answer: string, rs: seq<SearchResult>, hasCustom: bool) returns (r: string)
    ensures r == WithBalanceNote(answer, rs, hasCustom)
  {
    r := answer;
    var shares := SharesOf(rs, hasCustom);
    if shares.Some? {
      var sh := shares.value;
      if !AllBalanced(sh, hasCustom) {
        var note: string := [];
        if !Balanced(sh.perplexity, sh.target) {
          note := Assessment("Perplexity", sh.perplexity, sh.target, " ");
        }
        assert note == PerplexityPart(sh);
        if !Balanced(sh.web, sh.target) {
          note := note + Assessment("Web search", sh.web, sh.target, " ");
        }
        assert note == Leading(sh);
        if hasCustom && !Balanced(sh.custom, sh.target) {
          note := note + Assessment("Custom", sh.custom, sh.target, "");
        }
        assert note == Leading(sh) + CustomPart(sh, hasCustom);
        r := Framed(NOTE_HEAD, note, NOTE_TAIL + answer);
      }
    }
  }

  /** Nothing used, no note. */
  lemma NothingUsedNoNote(answer: string, rs: seq<SearchResult>, hasCustom: bool)
    requires forall i :: 0 <= i < |rs| ==> rs[i].used != Some(true)
    ensures WithBalanceNote(answer, rs, hasCustom) == answer
  {
    UsedOfTypeZero(rs, PERPLEXITY);
    UsedOfTypeZero(rs, SERPER);
    UsedOfTypeZero(rs, CUSTOM);
  }

  /** A custom share of 0% against the 33% target is named last in the note. */
  lemma NotedCustomLast(answer: string, sh: Shares)
    requires sh.custom == 0 && sh.target == 33
    ensures EndsWith(Noted(answer, sh, true), Assessment("Custom", 0, 33, "") + (NOTE_TAIL + answer))
  {
    var c := Assessment("Custom", 0, 33, "");
    assert !Balanced(sh.custom, sh.target);
    assert CustomPart(sh, true) == c;
    assert Noted(answer, sh, true) == Framed(NOTE_HEAD, Leading(sh) + c, NOTE_TAIL + answer);
    FramedSplit(NOTE_HEAD, Leading(sh), c, NOTE_TAIL + answer);
    Affixes(NOTE_HEAD + Leading(sh), c + (NOTE_TAIL + answer));
  }

  /**
   * Fetched custom sources that the answer never used are reported last, as
   * underrepresented at 0% (`Custom sources (0%) are underrepresented.`).
   */
  lemma UnusedCustomFlagged(answer: string, rs: seq<SearchResult>)
    requires UsedOfType(rs, CUSTOM) == 0 && UsedOfType(rs, PERPLEXITY) + UsedOfType(rs, SERPER) > 0
    ensures StartsWith(WithBalanceNote(answer, rs, true), NOTE_HEAD)
    ensures EndsWith(WithBalanceNote(answer, rs, true), Assessment("Custom", 0, 33, "") + (NOTE_TAIL + answer))
  {
    PercentOfNone(UsedOfType(rs, PERPLEXITY) + UsedOfType(rs, SERPER));
    var sh := SharesOf(rs, true).value;
    assert sh.custom == 0 && sh.target == 33;
    NotedCustomLast(answer, sh);
  }

  /** A 100% AI-search share is named first in the note. */
  lemma NotedPerplexityFirst(answer: string, sh: Shares, hasCustom: bool)
    requires sh.perplexity == 100 && sh.target <= 50
    ensures StartsWith(Noted(answer, sh, hasCustom), NOTE_HEAD + Assessment("Perplexity", 100, sh.target, " "))
  {
    assert Leading(sh) + CustomPart(sh, hasCustom) == PerplexityPart(sh) + (WebPart(sh) + CustomPart(sh, hasCustom));
    FramedStartsWith(NOTE_HEAD, PerplexityPart(sh), WebPart(sh) + CustomPart(sh, hasCustom), NOTE_TAIL + answer);
  }

  /** When every used source is an AI-search result, it is reported first, as overrepresented at 100%. */
  lemma SingleTypeFlagged(answer: string, rs: seq<SearchResult>, hasCustom: bool)
    requires UsedOfType(rs, PERPLEXITY) > 0 && UsedOfType(rs, SERPER) == 0 && UsedOfType(rs, CUSTOM) == 0
    ensures var target := if hasCustom then 33 else 50;
      StartsWith(WithBalanceNote(answer, rs, hasCustom), NOTE_HEAD + Assessment("Perplexity", 100, target, " "))
  {
    PercentOfAll(UsedOfType(rs, PERPLEXITY));
    NotedPerplexityFirst(answer, SharesOf(rs, hasCustom).value, hasCustom);
  }

  /** Two types used equally, and no custom sources fetched: 50% each, no note. */
  lemma EvenPairBalanced(answer: string, rs: seq<SearchResult>)
    requires UsedOfType(rs, PERPLEXITY) == UsedOfType(rs, SERPER) > 0 && UsedOfType(rs, CUSTOM) == 0
    ensures WithBalanceNote(answer, rs, false) == answer
  {
    var n := UsedOfType(rs, PERPLEXITY);
    PercentOfHalf(n);
    PercentOfNone(2 * n);
    assert SharesOf(rs, false) == Some(Shares(50, 50, 0, 50));
  }

  /** Three types used equally, with custom sources fetched: 33% each, no note. */
  lemma EvenTripleBalanced(answer: string, rs: seq<SearchResult>)
    requires UsedOfType(rs, PERPLEXITY) == UsedOfType(rs, SERPER) == UsedOfType(rs, CUSTOM) > 0
    ensures WithBalanceNote(answer, rs, true) == answer
  {
    var n := UsedOfType(rs, PERPLEXITY);
    PercentOfThird(n);
    assert SharesOf(rs, true) == Some(Shares(33, 33, 33, 33));
  }

  // ---------------------------------------------------------------------
  // Synthesis and its fallbacks

  /** The answer when synthesis fails: the AI-search answer behind a notice, or a fixed message. */
  function FallbackAnswer(pr: Option<PerplexityResponse>): (r: string)
    ensures pr.Some? && pr.value.answer != [] ==> r == FALLBACK_PREFIX + pr.value.answer
    ensures !(pr.Some? && pr.value.answer != []) ==> r == NO_ANSWER
  {
    if pr.Some? && pr.value.answer != [] then FALLBACK_PREFIX + pr.value.answer else NO_ANSWER
  }

  /** The sources, the unformatted answer and the error notes of the synthesis step. */
  datatype Stage = Stage(sources: seq<SearchResult>, answer: string, errors: seq<string>)

  function Synthesis(pool: seq<SearchResult>, urls: seq<string>, env: Env): (s: Stage)
    requires WebItems(WebStage(env)).Some?
    ensures pool == [] ==> s == Stage([], NO_RESULTS, [])
    ensures pool != [] && !env.openaiKey ==> s == Stage(pool, FallbackAnswer(PerplexityStage(env)), [OPENAI_ERROR + NO_OPENAI_KEY])
  {
    if pool == [] then Stage([], NO_RESULTS, [])
    else if !env.openaiKey then Stage(pool, FallbackAnswer(PerplexityStage(env)), [OPENAI_ERROR + NO_OPENAI_KEY])
    else
      match Summary(urls, env)
      case Failure(_) => Stage(pool, FallbackAnswer(PerplexityStage(env)), [OPENAI_ERROR + OBJECT_TEXT])
      case Success(resp) => Answered(pool, resp, CustomStage(urls, env).sources != [])
  }

  /** What the synthesizer returns for the gathered results. */
  function Summary(urls: seq<string>, env: Env): Outcome<OpenAIResponse>
    requires WebItems(WebStage(env)).Some?
  {
    env.summarize(ResultsOf(PerplexityStage(env)), ForSynthesis(WebItems(WebStage(env)).value), CustomStage(urls, env).sources)
  }

  /** A synthesized answer: the pool marked, the balance note, and the clean-up of left-over markup. */
  function Answered(pool: seq<SearchResult>, resp: OpenAIResponse, hasCustom: bool): (s: Stage)
    ensures s.errors == [] && s.sources == Synthesizer.MarkUsed(pool, resp.usedSourceUrls)
    ensures s.answer == Markdown.CleanHtmlFromPerplexity(WithBalanceNote(resp.answer, s.sources, hasCustom))
  {
    var marked := Synthesizer.MarkUsed(pool, resp.usedSourceUrls);
    Stage(marked, Markdown.CleanHtmlFromPerplexity(WithBalanceNote(resp.answer, marked, hasCustom)), [])
  }

  /** The errors of the gathering steps: the custom batch's warning, then a failed web search. */
  function GatherErrors(batch: CustomSources.CustomBatch, env: Env): seq<string> {
    (if batch.error.Some? then [CUSTOM_WARNING + batch.error.value] else [])
    + (if env.serperKey && env.web.WebThrew? then [SERPER_ERROR + OBJECT_TEXT] else [])
  }

  /** The pool, unless a `null` organic entry makes building it throw. */
  function Gathered(urls: seq<string>, env: Env): (r: Option<seq<SearchResult>>)
    ensures r.Some? <==> WebItems(WebStage(env)).Some?
  {
    match WebItems(WebStage(env))
    case None => None
    case Some(items) => Some(Pool(ResultsOf(PerplexityStage(env)), items, CustomStage(urls, env).sources))
  }

  /** `research(query, customUrls)`: the result, and the errors noted on the way. */
  function ResearchOf(query: string, urls: seq<string>, env: Env): (r: Run)
    ensures r.result.query == query && r.result.generatedAt == env.now
  {
    var early := GatherErrors(CustomStage(urls, env), env);
    match Gathered(urls, env)
    case None => Run(ResearchResult(query, UNEXPECTED + NULL_ENTRY, [], env.now), early)
    case Some(pool) =>
      var s := Synthesis(pool, urls, env);
      Run(ResearchResult(query, Markdown.EnsureProperMarkdownFormatting(s.answer), s.sources, env.now), early + s.errors)
  }

  /**
   * The orchestration as the source runs it: each adapter in turn, the pool
   * grown by concatenation, the answer reassigned by each later step.
   */
  method Research(query: string, customUrls: seq<string>, env: Env) returns (result: ResearchResult, errors: seq<string>)
    ensures Run(result, errors) == ResearchOf(query, customUrls, env)
  {
    var customSources, organic;
    customSources, organic, errors := GatherAll(customUrls, env);
    var perplexityResponse: Option<PerplexityResponse> := None;
    if env.perplexityKey {
      perplexityResponse := Some(env.perplexity);
    }
    var items := WebItems(organic);
    if items.None? {
      result := ResearchResult(query, UNEXPECTED + NULL_ENTRY, [], env.now);
      return;
    }
    var allSources := Merge(perplexityResponse, items.value, customSources);
    var stage := Synthesize(allSources, customUrls, env);
    result := ResearchResult(query, Markdown.EnsureProperMarkdownFormatting(stage.answer), stage.sources, env.now);
    errors := errors + stage.errors;
  }

  /** The pool grown by concatenation, each list added when it is not empty. */
  method Merge(perplexityResponse: Option<PerplexityResponse>, items: seq<WebItem>, customSources: seq<SearchResult>)
    returns (allSources: seq<SearchResult>)
    ensures allSources == Pool(ResultsOf(perplexityResponse), items, customSources)
  {
    allSources := [];
    if perplexityResponse.Some? && |perplexityResponse.value.results| > 0 {
      allSources := allSources + perplexityResponse.value.results;
    }
    assert allSources == ResultsOf(perplexityResponse);
    if |items| > 0 {
      allSources := allSources + WebSources(items);
    }
    assert allSources == ResultsOf(perplexityResponse) + WebSources(items);
    if |customSources| > 0 {
      allSources := allSources + customSources;
    }
  }

  /** The three adapters in turn, each failure noted and the next one still run. */
  method GatherAll(customUrls: seq<string>, env: Env) returns (customSources: seq<SearchResult>, organic: seq<Option<WebItem>>, errors: seq<string>)
    ensures customSources == CustomStage(customUrls, env).sources && organic == WebStage(env)
    ensures errors == GatherErrors(CustomStage(customUrls, env), env)
  {
    errors := [];
    customSources := [];
    if |customUrls| > 0 {
      var batch := env.customBatch;
      customSources := batch.sources;
      if batch.error.Some? {
        errors := errors + [CUSTOM_WARNING + batch.error.value];
      }
    }
    organic := [];
    if env.serperKey {
      match env.web {
        case WebReturned(entries) => organic := entries;
        case WebThrew => errors := errors + [SERPER_ERROR + OBJECT_TEXT];
      }
    }
  }

  /** The synthesis step: the answer reassigned by the synthesizer, the balance note and the clean-up, or a fallback. */
  method Synthesize(allSources: seq<SearchResult>, customUrls: seq<string>, env: Env) returns (stage: Stage)
    requires WebItems(WebStage(env)).Some?
    ensures stage == Synthesis(allSources, customUrls, env)
  {
    var perplexityResponse := PerplexityStage(env);
    if |allSources| == 0 {
      return Stage([], NO_RESULTS, []);
    }
    if !env.openaiKey {
      return Stage(allSources, FallbackAnswer(perplexityResponse), [OPENAI_ERROR + NO_OPENAI_KEY]);
    }
    var reply := Summary(customUrls, env);
    if reply.Failure? {
      return Stage(allSources, FallbackAnswer(perplexityResponse), [OPENAI_ERROR + OBJECT_TEXT]);
    }
    var answer := reply.value.answer;
    var marked := Synthesizer.MarkUsed(allSources, reply.value.usedSourceUrls);
    answer := NoteImbalance(answer, marked, CustomStage(customUrls, env).sources != []);
    answer := Markdown.CleanHtmlFromPerplexity(answer);
    stage := Stage(marked, answer, []);
  }

  // ---------------------------------------------------------------------
  // What the orchestration promises

  /** A `null` organic entry makes the pool throw: the outer handler answers and the sources are dropped. */
  lemma UnexpectedErrorAnswer(query: string, urls: seq<string>, env: Env)
    requires Gathered(urls, env).None?
    ensures ResearchOf(query, urls, env).result == ResearchResult(query, UNEXPECTED + NULL_ENTRY, [], env.now)
    ensures ResearchOf(query, urls, env).errors == GatherErrors(CustomStage(urls, env), env)
  {
  }

  /** An empty pool gives the fixed no-results answer and no sources. */
  lemma NoResultsAnswer(query: string, urls: seq<string>, env: Env)
    requires Gathered(urls, env) == Some([])
    ensures ResearchOf(query, urls, env).result.answer == Markdown.EnsureProperMarkdownFormatting(NO_RESULTS)
    ensures ResearchOf(query, urls, env).result.sources == []
  {
  }

  /** Whether the synthesizer answered for this pool. */
  predicate Synthesized(urls: seq<string>, env: Env) {
    WebItems(WebStage(env)).Some? && env.openaiKey && Summary(urls, env).Success?
  }

  /** Without a synthesized answer, the step falls back and notes one synthesizer error. */
  lemma SynthesisFallback(pool: seq<SearchResult>, urls: seq<string>, env: Env)
    requires WebItems(WebStage(env)).Some? && pool != [] && !Synthesized(urls, env)
    ensures var s := Synthesis(pool, urls, env);
      s.answer == FallbackAnswer(PerplexityStage(env)) && s.sources == pool
      && |s.errors| == 1 && StartsWith(s.errors[0], OPENAI_ERROR)
  {
    if env.openaiKey {
      Affixes(OPENAI_ERROR, OBJECT_TEXT);
    } else {
      Affixes(OPENAI_ERROR, NO_OPENAI_KEY);
    }
  }

  /**
   * With a non-empty pool and no synthesized answer (no key, or the call
   * failed), the answer falls back to the AI-search answer, the sources
   * are the pool as gathered, and one error is noted for the synthesizer.
   */
  lemma SynthesisFailureAnswer(query: string, urls: seq<string>, env: Env)
    requires Gathered(urls, env).Some? && Gathered(urls, env).value != []
    requires !Synthesized(urls, env)
    ensures var r := ResearchOf(query, urls, env);
      r.result.answer == Markdown.EnsureProperMarkdownFormatting(FallbackAnswer(PerplexityStage(env)))
      && r.result.sources == Gathered(urls, env).value
      && |r.errors| == |GatherErrors(CustomStage(urls, env), env)| + 1
      && StartsWith(r.errors[|r.errors| - 1], OPENAI_ERROR)
  {
    var pool := Gathered(urls, env).value;
    SynthesisFallback(pool, urls, env);
    var s := Synthesis(pool, urls, env);
    var r := ResearchOf(query, urls, env);
    assert r.errors[|r.errors| - 1] == s.errors[0];
  }

  /**
   * When the synthesizer answered, every pool entry comes back with `used`
   * set: true exactly when it has a URL the synthesizer counted as used.
   */
  lemma UsedMarking(query: string, urls: seq<string>, env: Env)
    requires Synthesized(urls, env)
    ensures var pool := Gathered(urls, env).value;
      var resp := Summary(urls, env).value;
      var sources := ResearchOf(query, urls, env).result.sources;
      |sources| == |pool|
      && forall i :: 0 <= i < |pool| ==> sources[i] == pool[i].(used := Some(Truthy(pool[i].url) && pool[i].url in resp.usedSourceUrls))
  {
  }

  /** The synthesis step keeps the pool, changing at most `used`. */
  lemma SynthesisKeepsPool(pool: seq<SearchResult>, urls: seq<string>, env: Env)
    requires WebItems(WebStage(env)).Some?
    ensures var sources := Synthesis(pool, urls, env).sources;
      |sources| == |pool| && forall i :: 0 <= i < |pool| ==> sources[i] == pool[i].(used := sources[i].used)
  {
  }

  /** Whatever happens, the result's sources are the pool with at most `used` changed, or none at all. */
  lemma SourcesAreThePool(query: string, urls: seq<string>, env: Env)
    ensures var sources := ResearchOf(query, urls, env).result.sources;
      match Gathered(urls, env)
      case None => sources == []
      case Some(pool) => |sources| == |pool| && forall i :: 0 <= i < |pool| ==> sources[i] == pool[i].(used := sources[i].used)
  {
    if Gathered(urls, env).Some? {
      SynthesisKeepsPool(Gathered(urls, env).value, urls, env);
    }
  }

  /**
   * A failed web search is noted and does not stop the rest: the pool still
   * holds the AI-search results followed by the custom sources.
   */
  lemma WebFailureIsolated(query: string, urls: seq<string>, env: Env)
    requires env.serperKey && env.web.WebThrew?
    ensures SERPER_ERROR + OBJECT_TEXT in ResearchOf(query, urls, env).errors
    ensures Gathered(urls, env) == Some(ResultsOf(PerplexityStage(env)) + CustomStage(urls, env).sources)
  {
    var early := GatherErrors(CustomStage(urls, env), env);
    assert early[|early| - 1] == SERPER_ERROR + OBJECT_TEXT;
    EarlyErrorsFirst(query, urls, env);
    assert WebItems(WebStage(env)) == Some([]);
    PoolWithoutWeb(ResultsOf(PerplexityStage(env)), CustomStage(urls, env).sources);
  }

  /** The errors noted while gathering come first in the run's errors. */
  lemma EarlyErrorsFirst(query: string, urls: seq<string>, env: Env)
    ensures GatherErrors(CustomStage(urls, env), env) <= ResearchOf(query, urls, env).errors
  {
  }

  lemma PoolWithoutWeb(pp: seq<SearchResult>, custom: seq<SearchResult>)
    ensures Pool(pp, [], custom) == pp + custom
  {
    assert WebSources([]) == [];
  }

  /** A custom batch that reports an error has it noted, and its sources still join the pool. */
  lemma CustomWarningNoted(query: string, urls: seq<string>, env: Env)
    requires CustomStage(urls, env).error.Some?
    ensures ResearchOf(query, urls, env).errors[0] == CUSTOM_WARNING + CustomStage(urls, env).error.value
  {
    var early := GatherErrors(CustomStage(urls, env), env);
    assert early[0] == CUSTOM_WARNING + CustomStage(urls, env).error.value;
    match Gathered(urls, env)
    case None =>
      assert ResearchOf(query, urls, env).errors == early;
    case Some(pool) =>
      assert ResearchOf(query, urls, env).errors == early + Synthesis(pool, urls, env).errors;
  }

  /** Unless the outer handler ran, the answer went through the markdown formatter and has no display controls. */
  lemma AnswerIsFormatted(query: string, urls: seq<string>, env: Env)
    requires Gathered(urls, env).Some?
    ensures Markdown.NoDisplayControls(ResearchOf(query, urls, env).result.answer)
  {
  }
}
