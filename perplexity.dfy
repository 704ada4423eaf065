/**
 * The AI-search adapter (`src/lib/api/perplexity.ts`): the search
 * endpoint's hits become sources with a title, a cleaned snippet and a
 * priority; when that endpoint fails, the chat fallback gathers URLs from
 * the answer text and the citation list and finds a quoted title in front
 * of each URL. The two network calls are parameters: what the search
 * endpoint answered (`SearchReply`) and what the chat endpoint answered
 * (`ChatReply`).
 */
module Perplexity {
  import opened Wrappers
  import opened Text
  import opened Types
  import Seqs
  import ApiUtils
  import Markdown

  // ---------------------------------------------------------------------
  // Snippet layout (`formatSnippetForReadability`)

  /** A `.` followed by whitespace starts at `k`: a place where `split(/\.\s+/)` cuts. */
  predicate DotSpaceAt(s: string, k: int) {
    0 <= k && k + 1 < |s| && s[k] == '.' && IsSpace(s[k + 1])
  }

  predicate NoDotSpace(s: string) {
    forall k :: 0 <= k < |s| ==> !DotSpaceAt(s, k)
  }

  /** `s.split(/\.\s+/)`: the pieces between the matches of a `.` and the whitespace run after it. */
  function SplitSentences(s: string): (r: seq<string>)
    ensures |r| >= 1
    decreases |s|
  {
    if s == [] then [""]
    else if DotSpaceAt(s, 0) then [""] + SplitSentences(s[1 + RunOf(s[1..], IsSpace)..])
    else
      var rest := SplitSentences(s[1..]);
      [[s[0]] + rest[0]] + rest[1..]
  }

  /** A piece without a cut point followed by `. ` and text that does not start with whitespace is cut off whole. */
  lemma {:induction false} SplitSentencesCons(p: string, rest: string)
    requires NoDotSpace(p)
    requires rest == [] || !IsSpace(rest[0])
    ensures SplitSentences(p + ". " + rest) == [p] + SplitSentences(rest)
    decreases |p|
  {
    var s := p + ". " + rest;
    if p == [] {
      assert s == ". " + rest;
      assert DotSpaceAt(s, 0);
      RunOfExact(s[1..], IsSpace, 1);
      assert s[2..] == rest;
    } else {
      var p' := p[1..];
      assert NoDotSpace(p') by {
        forall k | 0 <= k < |p'| ensures !DotSpaceAt(p', k) {
          assert !DotSpaceAt(p, k + 1);
        }
      }
      assert !DotSpaceAt(s, 0) by {
        if p' != [] {
          assert s[1] == p'[0];
          assert !DotSpaceAt(p, 0);
        } else {
          assert s[1] == '.';
        }
      }
      assert s[1..] == p' + ". " + rest;
      SplitSentencesCons(p', rest);
      assert [p[0]] + p' == p;
    }
  }

  /** A piece without a cut point is not split. */
  lemma {:induction false} SplitSentencesOfPiece(p: string)
    requires NoDotSpace(p)
    ensures SplitSentences(p) == [p]
    decreases |p|
  {
    if p != [] {
      var p' := p[1..];
      assert NoDotSpace(p') by {
        forall k | 0 <= k < |p'| ensures !DotSpaceAt(p', k) {
          assert !DotSpaceAt(p, k + 1);
        }
      }
      assert !DotSpaceAt(p, 0);
      SplitSentencesOfPiece(p');
      assert [p[0]] + p' == p;
    }
  }

  /**
   * Pieces without a cut point, joined with `. `, split back into the same
   * pieces, provided no piece after the first starts with whitespace.
   */
  lemma {:induction false} SplitSentencesOfJoined(ps: seq<string>)
    requires |ps| >= 1
    requires forall k :: 0 <= k < |ps| ==> NoDotSpace(ps[k])
    requires forall k :: 1 <= k < |ps| ==> ps[k] == [] || !IsSpace(ps[k][0])
    ensures SplitSentences(Join(ps, ". ")) == ps
    decreases |ps|
  {
    if |ps| == 1 {
      SplitSentencesOfPiece(ps[0]);
    } else {
      var tail := ps[1..];
      JoinedStartsVisible(tail);
      SplitSentencesCons(ps[0], Join(tail, ". "));
      SplitSentencesOfJoined(tail);
      JoinFirst(ps, ". ");
      Seqs.HeadTail(ps);
    }
  }

  /** Joined pieces start with whitespace only when the first piece does. */
  lemma JoinedStartsVisible(ps: seq<string>)
    requires |ps| >= 1 && (ps[0] == [] || !IsSpace(ps[0][0]))
    ensures var r := Join(ps, ". "); r == [] || !IsSpace(r[0])
  {
    if |ps| > 1 {
      assert Join(ps, ". ") == ps[0] + ". " + Join(ps[1..], ". ");
      assert (ps[0] + ". " + Join(ps[1..], ". "))[0] == if ps[0] == [] then '.' else ps[0][0];
    }
  }

  lemma JoinFirst(ps: seq<string>, sep: string)
    requires |ps| >= 2
    ensures Join(ps, sep) == ps[0] + sep + Join(ps[1..], sep)
  {
  }

  const BULLET: string := "\U{2022} "

  /** `• ` followed by a non-empty text that ends with a `.`. */
  predicate IsBullet(b: string) {
    |b| > |BULLET| && StartsWith(b, BULLET) && b[|b| - 1] == '.'
  }

  /** One bullet: `• `, the trimmed piece, and a `.` unless the untrimmed piece ends with one. */
  function BulletLine(line: string): (r: string)
    ensures IsBullet(r)
  {
    var body := Trim(line);
    if EndsWith(line, ".") then
      TrimEndsLikeLine(line);
      BulletOf(body, [])
    else BulletOf(body, ".")
  }

  /** `• ` + `body` + `dot` is a bullet when it ends with a `.`. */
  function BulletOf(body: string, dot: string): (r: string)
    requires body + dot != [] && (body + dot)[|body + dot| - 1] == '.'
    ensures IsBullet(r)
  {
    var r := BULLET + (body + dot);
    assert r[..|BULLET|] == BULLET;
    assert r[|r| - 1] == (body + dot)[|body + dot| - 1];
    r
  }

  /** Trimming keeps the last character when it is not whitespace. */
  lemma TrimEndsLikeLine(line: string)
    requires EndsWith(line, ".")
    ensures Trim(line) != [] && Trim(line)[|Trim(line)| - 1] == '.'
  {
    var t := TrimStart(line);
    assert line[|line| - 1] == '.';
    assert t != [];
    assert t[|t| - 1] == line[|line| - 1];
  }

  /** A trimmed, non-blank piece without a final `.` becomes `• piece.`. */
  lemma BulletLineOfSentence(line: string)
    requires line != [] && !IsSpace(line[0]) && !IsSpace(line[|line| - 1]) && line[|line| - 1] != '.'
    ensures BulletLine(line) == BULLET + line + "."
  {
    assert TrimStart(line) == line;
    assert TrimEnd(line) == line;
  }

  /** `lines.filter(l => l.trim().length > 0).map(bullet)`. */
  function Bullets(lines: seq<string>): (r: seq<string>)
    ensures |r| <= |lines|
    ensures forall k :: 0 <= k < |r| ==> IsBullet(r[k])
  {
    if lines == [] then []
    else (if Trim(lines[0]) == [] then [] else [BulletLine(lines[0])]) + Bullets(lines[1..])
  }

  /** Blank pieces are the only ones dropped: without them there is one bullet per piece, in order. */
  lemma {:induction false} BulletsOfNonBlank(lines: seq<string>)
    requires forall k :: 0 <= k < |lines| ==> !IsBlank(lines[k])
    ensures |Bullets(lines)| == |lines|
    ensures forall k :: 0 <= k < |lines| ==> Bullets(lines)[k] == BulletLine(lines[k])
  {
    if lines != [] {
      TrimEmptyIffBlank(lines[0]);
      BulletsOfNonBlank(lines[1..]);
    }
  }

  /** The text looks like a list: at least three pieces, each shorter than 100 characters. */
  predicate ListStyle(lines: seq<string>) {
    |lines| >= 3 && forall k :: 0 <= k < |lines| ==> |lines[k]| < 100
  }

  /** `replace(/([.!?])\s+/g, '$1\n\n')`: the whitespace after a sentence mark becomes a blank line. */
  function BreakAfterPunct(s: string): (r: string)
    ensures r == [] <==> s == []
    ensures r != [] ==> r[0] == s[0]
    decreases |s|
  {
    if s == [] then []
    else
      var n := RunOf(s[1..], IsSpace);
      if IsSentenceMark(s[0]) && n > 0 then [s[0], '\n', '\n'] + BreakAfterPunct(s[1 + n..])
      else [s[0]] + BreakAfterPunct(s[1..])
  }

  predicate IsSentenceMark(c: char) { c == '.' || c == '!' || c == '?' }

  /** If `t` starts with a sentence mark and whitespace, that whitespace is exactly one blank line followed by text. */
  predicate BreakOk(t: string) {
    !(|t| > 1 && IsSentenceMark(t[0]) && IsSpace(t[1]))
    || (|t| > 2 && t[1] == '\n' && t[2] == '\n' && (|t| == 3 || !IsSpace(t[3])))
  }

  /** Every sentence mark followed by whitespace is followed by exactly one blank line and then text. */
  predicate ParagraphBreaks(r: string) {
    forall i :: 0 <= i < |r| ==> BreakOk(r[i..])
  }

  /** Breaks stay well placed after a character that is not a mark followed by whitespace. */
  lemma BreaksCons(x: char, c: string)
    requires ParagraphBreaks(c)
    requires IsSentenceMark(x) && c != [] ==> !IsSpace(c[0])
    ensures ParagraphBreaks([x] + c)
  {
    var r := [x] + c;
    forall i | 1 <= i < |r| ensures BreakOk(r[i..]) {
      assert r[i..] == c[i - 1..];
    }
    assert r[0..] == r;
  }

  /** A mark, a blank line and text that does not start with whitespace keep the breaks well placed. */
  lemma BreaksAfterMark(x: char, c: string)
    requires ParagraphBreaks(c)
    requires c != [] ==> !IsSpace(c[0])
    ensures ParagraphBreaks([x, '\n', '\n'] + c)
  {
    var r := [x, '\n', '\n'] + c;
    forall i | 3 <= i < |r| ensures BreakOk(r[i..]) {
      assert r[i..] == c[i - 3..];
    }
    assert r[0..] == r && r[1..][0] == '\n' && r[2..][0] == '\n';
    assert |r| > 3 ==> r[3] == c[0];
  }

  lemma {:induction false} BreakAfterPunctBreaks(s: string)
    ensures ParagraphBreaks(BreakAfterPunct(s))
    decreases |s|
  {
    if s != [] {
      var n := RunOf(s[1..], IsSpace);
      if IsSentenceMark(s[0]) && n > 0 {
        BreakAfterPunctBreaks(s[1 + n..]);
        BreaksStepAtMark(s, n);
      } else {
        BreakAfterPunctBreaks(s[1..]);
        BreaksStepElsewhere(s);
      }
    }
  }

  /** The step of `BreakAfterPunctBreaks` at a mark followed by `n` whitespace characters. */
  lemma BreaksStepAtMark(s: string, n: nat)
    requires s != [] && IsSentenceMark(s[0]) && 0 < n && n == RunOf(s[1..], IsSpace)
    requires ParagraphBreaks(BreakAfterPunct(s[1 + n..]))
    ensures ParagraphBreaks(BreakAfterPunct(s))
  {
    var t := s[1 + n..];
    var c := BreakAfterPunct(t);
    assert c != [] ==> c[0] == t[0] == s[1..][n];
    BreaksAfterMark(s[0], c);
    assert BreakAfterPunct(s) == [s[0], '\n', '\n'] + c;
  }

  /** The step of `BreakAfterPunctBreaks` anywhere else. */
  lemma BreaksStepElsewhere(s: string)
    requires s != [] && !(IsSentenceMark(s[0]) && RunOf(s[1..], IsSpace) > 0)
    requires ParagraphBreaks(BreakAfterPunct(s[1..]))
    ensures ParagraphBreaks(BreakAfterPunct(s))
  {
    BreaksCons(s[0], BreakAfterPunct(s[1..]));
  }

  /** Only whitespace is replaced: the other characters stay, in order. */
  lemma {:induction false} BreakAfterPunctKeepsText(s: string)
    ensures Filter(BreakAfterPunct(s), NotSpace) == Filter(s, NotSpace)
    decreases |s|
  {
    if s != [] {
      var n := RunOf(s[1..], IsSpace);
      if IsSentenceMark(s[0]) && n > 0 {
        BreakAfterPunctKeepsText(s[1 + n..]);
        KeepsTextAtMark(s, n);
      } else {
        BreakAfterPunctKeepsText(s[1..]);
        KeepsTextElsewhere(s);
      }
    }
  }

  lemma KeepsTextAtMark(s: string, n: nat)
    requires s != [] && IsSentenceMark(s[0]) && 0 < n == RunOf(s[1..], IsSpace)
    requires Filter(BreakAfterPunct(s[1 + n..]), NotSpace) == Filter(s[1 + n..], NotSpace)
    ensures Filter(BreakAfterPunct(s), NotSpace) == Filter(s, NotSpace)
  {
    KeepsTextAfterMark(s, n, BreakAfterPunct(s[1 + n..]));
  }

  lemma KeepsTextElsewhere(s: string)
    requires s != [] && !(IsSentenceMark(s[0]) && RunOf(s[1..], IsSpace) > 0)
    requires Filter(BreakAfterPunct(s[1..]), NotSpace) == Filter(s[1..], NotSpace)
    ensures Filter(BreakAfterPunct(s), NotSpace) == Filter(s, NotSpace)
  {
    assert s == [s[0]] + s[1..];
    FilterConsSame(s[0], BreakAfterPunct(s[1..]), s[1..], NotSpace);
  }

  /** The step of `BreakAfterPunctKeepsText` at a mark followed by `n` whitespace characters. */
  lemma KeepsTextAfterMark(s: string, n: nat, c: string)
    requires s != [] && 0 < n <= |s| - 1 && IsBlank(s[1..][..n])
    requires Filter(c, NotSpace) == Filter(s[1 + n..], NotSpace)
    ensures Filter([s[0], '\n', '\n'] + c, NotSpace) == Filter(s, NotSpace)
  {
    var w := ['\n', '\n'];
    assert s[1..][n..] == s[1 + n..];
    SpaceRunFilter(s[1..], n, w, c);
    assert [s[0], '\n', '\n'] + c == [s[0]] + (w + c);
    FilterConsSame(s[0], w + c, s[1..], NotSpace);
    assert s == [s[0]] + s[1..];
  }

  /** Replacing a leading whitespace run by other whitespace keeps the rest's visible text. */
  lemma SpaceRunFilter(x: string, n: nat, w: string, y: string)
    requires n <= |x| && IsBlank(x[..n]) && IsBlank(w)
    requires Filter(y, NotSpace) == Filter(x[n..], NotSpace)
    ensures Filter(w + y, NotSpace) == Filter(x, NotSpace)
  {
    FilterConcat(w, y, NotSpace);
    FilterNoneKept(w, NotSpace);
    assert x == x[..n] + x[n..];
    FilterConcat(x[..n], x[n..], NotSpace);
    FilterNoneKept(x[..n], NotSpace);
  }

  /** Capping runs of line breaks keeps every sentence break in place. */
  lemma {:induction false} CapKeepsBreaks(s: string)
    requires ParagraphBreaks(s)
    ensures ParagraphBreaks(Markdown.CapBlankLines(s))
    decreases |s|
  {
    if s != [] {
      var n := RunOf(s, Markdown.IsNewline);
      if n > 0 {
        BreaksSuffix(s, n);
        CapKeepsBreaks(s[n..]);
        Markdown.CapBlankLinesStep(s);
        NewlinesCons(Markdown.CapHead(s), Markdown.CapBlankLines(s[n..]));
      } else if IsSentenceMark(s[0]) && |s| > 1 && IsSpace(s[1]) {
        assert BreakOk(s[0..]);
        BreaksSuffix(s, 3);
        CapKeepsBreaks(s[3..]);
        CapAfterMark(s);
        BreaksAfterMark(s[0], Markdown.CapBlankLines(s[3..]));
      } else {
        BreaksSuffix(s, 1);
        CapKeepsBreaks(s[1..]);
        CapOther(s);
        BreaksCons(s[0], Markdown.CapBlankLines(s[1..]));
      }
    }
  }

  lemma BreaksSuffix(s: string, k: nat)
    requires k <= |s| && ParagraphBreaks(s)
    ensures ParagraphBreaks(s[k..])
  {
    forall i | 0 <= i < |s[k..]| ensures BreakOk(s[k..][i..]) {
      assert s[k..][i..] == s[k + i..];
    }
  }

  /** Line breaks in front keep the breaks well placed. */
  lemma NewlinesCons(h: string, c: string)
    requires forall i :: 0 <= i < |h| ==> h[i] == '\n'
    requires ParagraphBreaks(c)
    ensures ParagraphBreaks(h + c)
  {
    var r := h + c;
    forall i | 0 <= i < |r| ensures BreakOk(r[i..]) {
      if i >= |h| { assert r[i..] == c[i - |h|..]; }
    }
  }

  /** A mark and one blank line before text are left as they are by the cap. */
  lemma CapAfterMark(s: string)
    requires |s| > 2 && !Markdown.IsNewline(s[0]) && s[1] == '\n' && s[2] == '\n' && (|s| == 3 || !IsSpace(s[3]))
    ensures Markdown.CapBlankLines(s) == [s[0], '\n', '\n'] + Markdown.CapBlankLines(s[3..])
  {
    RunOfExact(s[1..], Markdown.IsNewline, 2);
    assert s[1..][2..] == s[3..];
    assert Markdown.CapBlankLines(s[1..]) == s[1..][..2] + Markdown.CapBlankLines(s[3..]);
  }

  lemma CapOther(s: string)
    requires s != [] && !Markdown.IsNewline(s[0])
    ensures Markdown.CapBlankLines(s) == [s[0]] + Markdown.CapBlankLines(s[1..])
    ensures |s| > 1 ==> Markdown.CapBlankLines(s[1..])[0] == s[1]
  {
  }

  /**
   * `formatSnippetForReadability`: empty text stays empty; text whose
   * `.`-separated pieces are at least three and all short becomes one bullet
   * per non-blank piece; any other text gets a blank line after each
   * sentence mark and runs of three or more line breaks cut to two.
   */
  function FormatSnippetForReadability(snippet: string): (r: string)
    ensures snippet == [] ==> r == []
    ensures snippet != [] && ListStyle(SplitSentences(snippet)) ==> r == Join(Bullets(SplitSentences(snippet)), "\n")
    ensures snippet != [] && !ListStyle(SplitSentences(snippet)) ==>
      Filter(r, NotSpace) == Filter(snippet, NotSpace) && Markdown.NoTripleNewline(r) && ParagraphBreaks(r)
  {
    if snippet == [] then []
    else
      var lines := SplitSentences(snippet);
      if ListStyle(lines) then Join(Bullets(lines), "\n")
      else
        var b := BreakAfterPunct(snippet);
        BreakAfterPunctKeepsText(snippet);
        Markdown.CapBlankLinesCaps(b);
        Markdown.CapBlankLinesRemovesOnlyNewlines(b);
        FilterFilter(Markdown.CapBlankLines(b), Markdown.NotNewline, NotSpace);
        FilterFilter(b, Markdown.NotNewline, NotSpace);
        BreakAfterPunctBreaks(snippet);
        CapKeepsBreaks(b);
        Markdown.CapBlankLines(b)
  }

  // ---------------------------------------------------------------------
  // Search endpoint hits (`searchWithPerplexity`)

  /** One entry of `web_search.results`. */
  datatype WebHit = WebHit(url: string, title: Option<string>, extract: Option<string>, content: Option<string>)

  datatype WebSearch = WebSearch(results: Option<seq<WebHit>>)

  /** The search endpoint's JSON body. */
  datatype SearchPayload = SearchPayload(answer: Option<string>, webSearch: Option<WebSearch>)

  /** What the search call did: a non-OK status, an OK body, or an exception. */
  datatype SearchReply = NotOk(status: int) | Ok(payload: SearchPayload) | Threw

  /** What the chat call did: an answer with its optional citation list, or an exception with its message. */
  datatype ChatReply = ChatOk(content: string, citations: Option<seq<string>>) | ChatThrew(message: string)

  const ANALYSIS_HEADING: string := "## Perplexity AI Analysis\n\n"
  const SEARCH_FOOTER: string := "\n\n*The above analysis was generated by Perplexity AI and enriched with web search results.*"
  const CHAT_FOOTER: string := "\n\n*This comprehensive analysis was generated by Perplexity AI with integrated web search.*"
  const CHAT_SNIPPET: string := "Source from Perplexity AI research"
  const FALLBACK_ERROR: string := "Failed to retrieve data from Perplexity: "

  /** The `n`-th label, counting from one: `prefix` followed by the number. */
  function Numbered(prefix: string, i: nat): (r: string)
    requires prefix != [] && !IsSpace(prefix[0])
    ensures StartsWith(r, prefix)
    ensures Trim(r) != []
  {
    var r := prefix + NatToString(i + 1);
    assert r[0] == prefix[0] && r[..|prefix|] == prefix;
    TrimEmptyIffBlank(r);
    r
  }

  /** The cleaned extract, then, when the content differs from the extract, the cleaned content after a blank line. */
  function SnippetOf(hit: WebHit): (r: string)
    ensures !Truthy(hit.extract) && Truthy(hit.content) ==> r == Markdown.CleanHtmlFromPerplexity(hit.content.value)
    ensures hit.content == hit.extract ==> r == (if Truthy(hit.extract) then Markdown.CleanHtmlFromPerplexity(hit.extract.value) else [])
  {
    var first := if Truthy(hit.extract) then Markdown.CleanHtmlFromPerplexity(hit.extract.value) else [];
    if Truthy(hit.content) && hit.content != hit.extract then
      first + (if first != [] then "\n\n" else "") + Markdown.CleanHtmlFromPerplexity(hit.content.value)
    else first
  }

  /** The source built from hit `i`: its title or a numbered one, its snippet, and a high priority for the first three. */
  function MapHit(hit: WebHit, i: nat): (r: SearchResult)
    ensures r.url == Some(hit.url) && r.source == PERPLEXITY
    ensures r.priority == Some(High) <==> i < 3
    ensures r.priority.Some? && r.priority != Some(Low)
    ensures r.snippet == Some(FormatSnippetForReadability(SnippetOf(hit)))
    ensures ApiUtils.HasTitle(SearchResult(Some(hit.url), hit.title, None, None, PERPLEXITY, None, None, None, None)) ==> r.title == hit.title
    ensures !Truthy(hit.title) ==> r.title == Some(Numbered("Perplexity Result ", i))
    ensures Truthy(r.title)
  {
    var title := OrElse(hit.title, Numbered("Perplexity Result ", i));
    ApiUtils.EnsureSourceHasTitle(SearchResult(
      Some(hit.url), Some(title), None, Some(FormatSnippetForReadability(SnippetOf(hit))),
      PERPLEXITY, None, None, None, Some(if i < 3 then High else Medium)))
  }

  /** A non-empty answer, cleaned, under the analysis heading and above the footer; an empty one stays empty. */
  function EnhancedAnswer(answer: Option<string>): (r: string)
    ensures r == [] <==> !Truthy(answer)
    ensures Truthy(answer) ==> StartsWith(r, ANALYSIS_HEADING) && EndsWith(r, SEARCH_FOOTER)
    ensures Truthy(answer) ==>
      |r| >= |ANALYSIS_HEADING| + |SEARCH_FOOTER| && r[|ANALYSIS_HEADING|..|r| - |SEARCH_FOOTER|] == Markdown.CleanHtmlFromPerplexity(answer.value)
  {
    if Truthy(answer) then
      Framed(ANALYSIS_HEADING, Markdown.CleanHtmlFromPerplexity(answer.value), SEARCH_FOOTER)
    else []
  }

  /** `data.web_search.results || []`. */
  function Hits(ws: WebSearch): seq<WebHit> {
    if ws.results.Some? then ws.results.value else []
  }

  /** The search endpoint answered with a body that has a `web_search` object. */
  predicate Answered(search: SearchReply) {
    search.Ok? && search.payload.webSearch.Some?
  }

  /**
   * `searchWithPerplexity`: with a usable search body, one source per hit
   * and the enhanced answer; after a non-OK status or any exception
   * (including a body without `web_search`), the chat fallback.
   */
  function SearchWithPerplexity(search: SearchReply, chat: ChatReply): (r: PerplexityResponse)
    ensures !Answered(search) ==> r == FallbackToPerplexityChat(chat)
    ensures Answered(search) ==> r.error.None? && r.answer == EnhancedAnswer(search.payload.answer)
    ensures Answered(search) ==> |r.results| == |Hits(search.payload.webSearch.value)|
    ensures Answered(search) ==> forall i :: 0 <= i < |r.results| ==> r.results[i] == MapHit(Hits(search.payload.webSearch.value)[i], i)
  {
    if Answered(search) then
      var hits := Hits(search.payload.webSearch.value);
      PerplexityResponse(
        seq(|hits|, i requires 0 <= i < |hits| => MapHit(hits[i], i)),
        EnhancedAnswer(search.payload.answer),
        None)
    else FallbackToPerplexityChat(chat)
  }

  // ---------------------------------------------------------------------
  // Chat fallback (`fallbackToPerplexityChat`)

  /** The characters `[^\s)]` excludes: a URL in the answer runs up to whitespace or `)`. */
  predicate EndsAnswerUrl(c: char) { IsSpace(c) || c == ')' }

  /** `answer.match(/https?:\/\/[^\s)]+/g) || []`. */
  function AnswerUrls(answer: string): (r: seq<string>)
    ensures forall k :: 0 <= k < |r| ==> ApiUtils.IsUrlToken(r[k], EndsAnswerUrl)
  {
    ApiUtils.MatchUrls(answer, EndsAnswerUrl)
  }

  /**
   * `Array.from(new Set([...Array.from(new Set(extracted)), ...citations]))`:
   * every URL found in the answer or cited, once, those from the answer first
   * in the order they first occur.
   */
  function FallbackUrls(answer: string, citations: seq<string>): (r: seq<string>)
    ensures forall u :: u in r <==> u in AnswerUrls(answer) || u in citations
    ensures Seqs.NoDuplicates(r)
    ensures |Seqs.Dedupe(AnswerUrls(answer))| <= |r| && r[..|Seqs.Dedupe(AnswerUrls(answer))|] == Seqs.Dedupe(AnswerUrls(answer))
  {
    var unique := Seqs.Dedupe(AnswerUrls(answer));
    Seqs.DedupeKeepsPrefix(unique, citations);
    Seqs.DedupeIdempotent(AnswerUrls(answer));
    Seqs.Dedupe(unique + citations)
  }

  /** Removing repeats from the answer's URLs first makes no difference to the union. */
  lemma FallbackUrlsIsOneDedupe(answer: string, citations: seq<string>)
    ensures FallbackUrls(answer, citations) == Seqs.Dedupe(AnswerUrls(answer) + citations)
  {
    Seqs.DedupeOfDedupedPrefix(AnswerUrls(answer), citations);
  }

  predicate IsQuote(c: char) { c == '"' || c == '\'' }

  predicate NoQuotes(t: string) {
    forall k :: 0 <= k < |t| ==> !IsQuote(t[k])
  }

  /** The last quote mark before index `q`. */
  function LastQuoteBefore(s: string, q: nat): (r: Option<nat>)
    requires q <= |s|
    ensures r.Some? ==> r.value < q && IsQuote(s[r.value]) && forall k :: r.value < k < q ==> !IsQuote(s[k])
    ensures r.None? ==> forall k :: 0 <= k < q ==> !IsQuote(s[k])
  {
    if q == 0 then None
    else if IsQuote(s[q - 1]) then Some(q - 1)
    else LastQuoteBefore(s, q - 1)
  }

  /** `s` ends with `t` between two quote marks, followed only by whitespace. */
  predicate QuotedAtEnd(s: string, t: string) {
    |t| + 2 <= |TrimEnd(s)|
    && IsQuote(s[|TrimEnd(s)| - 1])
    && IsQuote(s[|TrimEnd(s)| - |t| - 2])
    && s[|TrimEnd(s)| - |t| - 1..|TrimEnd(s)| - 1] == t
  }

  /** The group of `/["']([^"']+)["']\s*$/` matched against `s`. */
  function QuotedTitle(s: string): (r: Option<string>)
    ensures r.Some? ==> r.value != [] && NoQuotes(r.value) && QuotedAtEnd(s, r.value)
  {
    var e := |TrimEnd(s)|;
    if e == 0 || !IsQuote(s[e - 1]) then None
    else
      match LastQuoteBefore(s, e - 1)
      case Some(p) =>
        if p + 1 < e - 1 then
          Some(s[p + 1..e - 1])
        else None
      case None => None
  }

  /** Whenever a quoted text without quote marks ends `s` (up to whitespace), it is the title found. */
  lemma QuotedTitleComplete(s: string, t: string)
    requires t != [] && NoQuotes(t) && QuotedAtEnd(s, t)
    ensures QuotedTitle(s) == Some(t)
  {
    var e := |TrimEnd(s)|;
    var p := e - |t| - 2;
    forall k | p < k < e - 1 ensures !IsQuote(s[k]) {
      assert s[k] == t[k - p - 1];
    }
    var found := LastQuoteBefore(s, e - 1);
    assert found.Some? && found.value == p;
  }

  /** `Perplexity Source {i+1}`, the title used when no quoted one is found. */
  function SourceLabel(i: nat): (r: string)
    ensures Trim(r) != []
  {
    Numbered("Perplexity Source ", i)
  }

  /** The (at most) 100 characters before index `j`. */
  function Before(answer: string, j: nat): (r: string)
    requires j <= |answer|
    ensures |r| <= 100 && |r| <= j && r == answer[j - |r|..j]
  {
    answer[if j >= 100 then j - 100 else 0..j]
  }

  /** The title for `url`: a quoted text ending the 100 characters before its first occurrence, else the numbered label. */
  function ContextTitle(answer: string, url: string, i: nat): (r: string)
    ensures r != []
    ensures Find(answer, url).None? ==> r == SourceLabel(i)
    ensures Find(answer, url).Some? ==> r == (match QuotedTitle(Before(answer, Find(answer, url).value)) case Some(t) => t case None => SourceLabel(i))
  {
    match Find(answer, url)
    case None => SourceLabel(i)
    case Some(j) =>
      match QuotedTitle(Before(answer, j))
      case Some(t) => t
      case None => SourceLabel(i)
  }

  /** One source per URL, in order. */
  function FallbackSources(answer: string, urls: seq<string>): (r: seq<SearchResult>)
    ensures |r| == |urls| && forall i :: 0 <= i < |r| ==> r[i] == FallbackSource(answer, urls[i], i)
  {
    seq(|urls|, i requires 0 <= i < |urls| => FallbackSource(answer, urls[i], i))
  }

  /** The source for the `i`-th fallback URL. */
  function FallbackSource(answer: string, url: string, i: nat): (r: SearchResult)
    ensures r.url == Some(url) && r.source == PERPLEXITY && r.snippet == Some(CHAT_SNIPPET)
    ensures r.title == Some(ContextTitle(answer, url, i))
    ensures r.priority == Some(if i < 3 then High else Medium)
  {
    SearchResult(Some(url), Some(ContextTitle(answer, url, i)), None, Some(CHAT_SNIPPET), PERPLEXITY, None, None, None, Some(if i < 3 then High else Medium))
  }

  /** `data.citations || []`. */
  function Citations(chat: ChatReply): seq<string>
    requires chat.ChatOk?
  {
    if chat.citations.Some? then chat.citations.value else []
  }

  /**
   * `fallbackToPerplexityChat`: one source per URL of the answer and the
   * citations, and the cleaned answer under the analysis heading; a failed
   * call does not throw but returns no sources, an empty answer and an error.
   */
  function FallbackToPerplexityChat(chat: ChatReply): (r: PerplexityResponse)
    ensures chat.ChatThrew? ==> r == PerplexityResponse([], [], Some(FALLBACK_ERROR + chat.message))
    ensures chat.ChatOk? ==> r.error.None? && StartsWith(r.answer, ANALYSIS_HEADING) && EndsWith(r.answer, CHAT_FOOTER)
    ensures chat.ChatOk? ==>
      |r.answer| >= |ANALYSIS_HEADING| + |CHAT_FOOTER| && r.answer[|ANALYSIS_HEADING|..|r.answer| - |CHAT_FOOTER|] == Markdown.CleanHtmlFromPerplexity(chat.content)
    ensures chat.ChatOk? ==> |r.results| == |FallbackUrls(chat.content, Citations(chat))|
    ensures chat.ChatOk? ==> forall i :: 0 <= i < |r.results| ==>
      r.results[i] == FallbackSource(chat.content, FallbackUrls(chat.content, Citations(chat))[i], i)
  {
    match chat
    case ChatThrew(message) => PerplexityResponse([], [], Some(FALLBACK_ERROR + message))
    case ChatOk(content, _) =>
      PerplexityResponse(
        FallbackSources(content, FallbackUrls(content, Citations(chat))),
        Framed(ANALYSIS_HEADING, Markdown.CleanHtmlFromPerplexity(content), CHAT_FOOTER),
        None)
  }

  /** The fallback's sources have pairwise different URLs, cover every URL found or cited, and only the first three are high priority. */
  lemma FallbackSourcesDistinct(chat: ChatReply)
    requires chat.ChatOk?
    ensures var rs := FallbackToPerplexityChat(chat).results;
      (forall i, j :: 0 <= i < j < |rs| ==> rs[i].url != rs[j].url)
      && (forall i :: 0 <= i < |rs| ==> (rs[i].priority == Some(High) <==> i < 3))
      && (forall u :: u in AnswerUrls(chat.content) || u in Citations(chat) ==> Some(u) in UrlsOf(rs))
  {
    var urls := FallbackUrls(chat.content, Citations(chat));
    assert FallbackToPerplexityChat(chat).results == FallbackSources(chat.content, urls);
    SourcesOfDistinctUrls(chat.content, urls);
  }

  /** Sources built from pairwise different URLs have pairwise different URLs and cover every one of them. */
  lemma SourcesOfDistinctUrls(answer: string, urls: seq<string>)
    requires Seqs.NoDuplicates(urls)
    ensures var rs := FallbackSources(answer, urls);
      (forall i, j :: 0 <= i < j < |rs| ==> rs[i].url != rs[j].url)
      && (forall i :: 0 <= i < |rs| ==> (rs[i].priority == Some(High) <==> i < 3))
      && (forall u :: u in urls ==> Some(u) in UrlsOf(rs))
  {
    var rs := FallbackSources(answer, urls);
    forall i, j | 0 <= i < j < |rs| ensures rs[i].url != rs[j].url {
      assert rs[i].url == Some(urls[i]) && rs[j].url == Some(urls[j]);
    }
    forall u | u in urls ensures Some(u) in UrlsOf(rs) {
      var k :| 0 <= k < |urls| && urls[k] == u;
      assert UrlsOf(rs)[k] == Some(u);
    }
  }
}
