/**
 * The custom-URL adapter (`src/lib/api/customSources.ts`): URL checking,
 * the HTML text helpers, the extraction cascade of `fetchFromUrl` over the
 * outputs of its strategies, the record built for each fetched page, and
 * the batch that validates, de-duplicates and gathers per-URL outcomes.
 *
 * The network call, JSDOM, Readability and `JSON.parse` are not modelled:
 * what they return is part of the input (`Fetched`, `Page`).
 */
module CustomSources {
  import opened Wrappers
  import opened Text
  import Url
  import opened Types
  import Seqs

  /** `isValidUrl`: the URL parses and its protocol is `http:` or `https:`. */
  function IsValidUrl(url: string): (ok: bool)
    ensures ok <==> Url.Parse(url).Some? && (Url.Parse(url).value.protocol == "http:" || Url.Parse(url).value.protocol == "https:")
    ensures ok ==> Url.Parse(url).Some? && Url.Parse(url).value.hostname != []
    ensures ok ==> StartsWith(Url.Parse(url).value.pathname, "/")
  {
    Url.IsHttpUrl(url)
  }

  // ---------------------------------------------------------------------
  // Elements and tags

  /** Where an element `<tag …>…</tag>` sits: its `<`, the first character after its opening `>`, and its closing tag. */
  datatype Span = Span(start: nat, inner: nat, close: nat)

  /**
   * The leftmost match of `/<tag[^>]*>([\s\S]*?)<\/tag>/i`. Only the first
   * `<tag` can start a match: a later one has its `>` and its closing tag
   * no earlier than the first one's.
   */
  function FindElement(s: string, tag: string): (r: Option<Span>)
    ensures r.Some? ==> var sp := r.value;
      sp.start + |tag| + 1 < sp.inner <= sp.close && sp.close + |tag| + 3 <= |s|
      && OccursAtIgnoreCase(s, "<" + tag, sp.start) && s[sp.inner - 1] == '>'
      && OccursAtIgnoreCase(s, "</" + tag + ">", sp.close)
      && '>' !in s[sp.start + |tag| + 1..sp.inner - 1]
    ensures r.Some? ==> forall j :: 0 <= j < r.value.start ==> !OccursAtIgnoreCase(s, "<" + tag, j)
    ensures r.Some? ==> forall j :: r.value.inner <= j < r.value.close ==> !OccursAtIgnoreCase(s, "</" + tag + ">", j)
  {
    match FindFromIgnoreCase(s, "<" + tag, 0)
    case None => None
    case Some(i) =>
      var from := i + |tag| + 1;
      match IndexOfChar(s[from..], '>')
      case None => None
      case Some(k) =>
        assert s[from..][k] == s[from + k];
        assert s[from..from + k] == s[from..][..k];
        match FindFromIgnoreCase(s, "</" + tag + ">", from + k + 1)
        case None => None
        case Some(c) => Some(Span(i, from + k + 1, c))
  }

  /**
   * Some element `<tag …>…</tag>` occurs: an opening `<tag` at `i`, a `>` at
   * `k` after it, and a closing tag at `c` after that.
   */
  ghost predicate HasElement(s: string, tag: string) {
    exists i, k, c :: OccursAtIgnoreCase(s, "<" + tag, i) && i + |tag| + 1 <= k < c && k < |s| && s[k] == '>'
                      && OccursAtIgnoreCase(s, "</" + tag + ">", c)
  }

  /** The search finds an element exactly when there is one. */
  lemma FindElementExact(s: string, tag: string)
    ensures FindElement(s, tag).Some? <==> HasElement(s, tag)
  {
    var open, close := "<" + tag, "</" + tag + ">";
    match FindFromIgnoreCase(s, open, 0)
    case None =>
    case Some(i0) =>
      var from := i0 + |tag| + 1;
      match IndexOfChar(s[from..], '>')
      case None =>
        forall i, k | OccursAtIgnoreCase(s, open, i) && i + |tag| + 1 <= k < |s| ensures s[k] != '>' {
          assert s[k] == s[from..][k - from];
        }
      case Some(k0) =>
        assert s[from + k0] == s[from..][k0];
        match FindFromIgnoreCase(s, close, from + k0 + 1)
        case None =>
          forall i, k | OccursAtIgnoreCase(s, open, i) && i + |tag| + 1 <= k < |s| && s[k] == '>' ensures from + k0 <= k {
          }
        case Some(c) =>
          assert OccursAtIgnoreCase(s, open, i0) && i0 + |tag| + 1 <= from + k0 < c && s[from + k0] == '>';
  }

  /** `replace(/<tag[^>]*>[\s\S]*?<\/tag>/gi, ' ')`: every such element becomes one space. */
  function RemoveElements(s: string, tag: string): (r: string)
    ensures FindElement(s, tag).None? ==> r == s
    ensures FindElement(s, tag).Some? ==>
      var st := FindElement(s, tag).value.start; |r| > st && r[..st] == s[..st] && r[st] == ' '
    decreases |s|
  {
    var found := FindElement(s, tag);
    if found.None? then s
    else s[..found.value.start] + " " + RemoveElements(s[found.value.close + |tag| + 3..], tag)
  }

  /**
   * After the removal no element is left: text around a removed element
   * cannot form a new one, since the space put in its place cannot be part
   * of `<tag` (for a tag without spaces).
   */
  lemma {:induction false} RemoveElementsLeavesNone(s: string, tag: string)
    requires ' ' !in tag
    ensures !HasElement(RemoveElements(s, tag), tag)
    decreases |s|
  {
    FindElementExact(s, tag);
    match FindElement(s, tag)
    case None =>
    case Some(sp) =>
      var rest := s[sp.close + |tag| + 3..];
      RemoveElementsLeavesNone(rest, tag);
      var x := s[..sp.start] + " ";
      NoOpenBefore(s, x, tag, sp.start);
      NoElementAcrossSpace(x, RemoveElements(rest, tag), tag);
      RemoveElementsAt(s, tag);
  }

  lemma RemoveElementsAt(s: string, tag: string)
    requires FindElement(s, tag).Some?
    ensures var sp := FindElement(s, tag).value;
      RemoveElements(s, tag) == s[..sp.start] + " " + RemoveElements(s[sp.close + |tag| + 3..], tag)
  {
  }

  lemma NoOpenBefore(s: string, x: string, tag: string, start: nat)
    requires start <= |s| && x == s[..start] + " "
    requires forall j :: 0 <= j < start ==> !OccursAtIgnoreCase(s, "<" + tag, j)
    ensures forall j :: 0 <= j && j + |tag| + 1 <= |x| - 1 ==> !OccursAtIgnoreCase(x, "<" + tag, j)
  {
    forall j | 0 <= j && j + |tag| + 1 <= |x| - 1 ensures !OccursAtIgnoreCase(x, "<" + tag, j) {
      assert x[..start] == s[..start];
      assert x[j..j + |tag| + 1] == s[..start][j..j + |tag| + 1] == s[j..j + |tag| + 1];
      assert !OccursAtIgnoreCase(s, "<" + tag, j);
    }
  }

  /** Text with no opening tag before a final space, then text with no element, holds no element. */
  lemma NoElementAcrossSpace(x: string, rest: string, tag: string)
    requires x != [] && x[|x| - 1] == ' ' && ' ' !in tag
    requires forall j :: 0 <= j && j + |tag| + 1 <= |x| - 1 ==> !OccursAtIgnoreCase(x, "<" + tag, j)
    requires !HasElement(rest, tag)
    ensures !HasElement(x + rest, tag)
  {
    var open, close, t := "<" + tag, "</" + tag + ">", x + rest;
    var n := |x|;
    if HasElement(t, tag) {
      var i, k, c :| OccursAtIgnoreCase(t, open, i) && i + |tag| + 1 <= k < c && k < |t| && t[k] == '>'
                     && OccursAtIgnoreCase(t, close, c);
      if i + |open| <= n - 1 {
        OccursInPrefix(x, rest, open, i);
      } else if i <= n - 1 {
        SpaceBlocksOpen(t, tag, i, n - 1);
      } else {
        OccursInSuffix(x, rest, open, i);
        OccursInSuffix(x, rest, close, c);
      }
    }
  }

  lemma OccursInPrefix(x: string, rest: string, p: string, i: nat)
    requires i + |p| <= |x| && OccursAtIgnoreCase(x + rest, p, i)
    ensures OccursAtIgnoreCase(x, p, i)
  {
    assert (x + rest)[i..i + |p|] == x[i..i + |p|];
  }

  lemma OccursInSuffix(x: string, rest: string, p: string, i: nat)
    requires |x| <= i && OccursAtIgnoreCase(x + rest, p, i)
    ensures OccursAtIgnoreCase(rest, p, i - |x|)
  {
    assert (x + rest)[i..i + |p|] == rest[i - |x|..i - |x| + |p|];
  }

  /** `<tag` cannot match across a space when the tag has none. */
  lemma SpaceBlocksOpen(t: string, tag: string, i: nat, q: nat)
    requires ' ' !in tag && i <= q < i + |tag| + 1 && q < |t| && t[q] == ' '
    ensures !OccursAtIgnoreCase(t, "<" + tag, i)
  {
  }

  /**
   * `replace(/<[^>]*>/g, ' ')` when `minInner` is 0 and `replace(/<[^>]+>/g, ' ')`
   * when it is 1: each `<`, at least `minInner` characters other than `>`, and
   * the next `>`, become one space.
   */
  function StripTags(s: string, minInner: nat): (r: string)
    requires minInner <= 1
    ensures forall i, j :: 0 <= i < j < |r| && r[i] == '<' && r[j] == '>' ==> minInner == 1 && r[i + 1] == '>'
    decreases |s|
  {
    if s == [] then []
    else if s[0] == '<' then
      match IndexOfChar(s[1..], '>')
      case None =>
        NoCloseAfter(s);
        s
      case Some(k) =>
        if k < minInner then
          var rest := StripTags(s[1..], minInner);
          assert s[1..][0] == '>';
          assert rest == [s[1]] + StripTags(s[2..], minInner);
          ['<'] + rest
        else " " + StripTags(s[k + 2..], minInner)
    else [s[0]] + StripTags(s[1..], minInner)
  }

  lemma NoCloseAfter(s: string)
    requires s != [] && '>' !in s[1..]
    ensures forall j :: 0 < j < |s| ==> s[j] != '>'
  {
    forall j | 0 < j < |s| ensures s[j] != '>' {
      assert s[j] == s[1..][j - 1];
    }
  }

  /** The entity replacements of `cleanHtml`, in its order: `&amp;` is the fourth of six. */
  const ENTITY_STEPS: seq<string -> string> := [
    s => ReplaceAll(s, "&nbsp;", " "),
    s => ReplaceAll(s, "&lt;", "<"),
    s => ReplaceAll(s, "&gt;", ">"),
    s => ReplaceAll(s, "&amp;", "&"),
    s => ReplaceAll(s, "&quot;", "\""),
    s => ReplaceAll(s, "&apos;", "'")
  ]

  /** The rewrites of `cleanHtml` before the whitespace is squeezed: scripts, styles, tags, then entities. */
  const CLEAN_HTML_STEPS: seq<string -> string> :=
    [s => RemoveElements(s, "script"), s => RemoveElements(s, "style"), s => StripTags(s, 0)] + ENTITY_STEPS

  /** `cleanHtml`: scripts, styles and tags removed, six entities decoded, whitespace squeezed and trimmed. */
  function CleanHtml(html: string): (r: string)
    ensures r != [] ==> !IsSpace(r[0]) && !IsSpace(r[|r| - 1])
  {
    Squeeze(Chain(html, CLEAN_HTML_STEPS))
  }

  /** Cleaned text is one line with single plain spaces. */
  lemma CleanHtmlSpacing(html: string)
    ensures NoAdjacentSpaces(CleanHtml(html)) && OnlyPlainSpaces(CleanHtml(html))
    ensures '\n' !in CleanHtml(html)
  {
    var r := CleanHtml(html);
    SqueezeSpacing(Chain(html, CLEAN_HTML_STEPS));
    assert forall i :: 0 <= i < |r| ==> r[i] != '\n' by {
      forall i | 0 <= i < |r| ensures r[i] != '\n' {
        assert IsSpace(r[i]) ==> r[i] == ' ';
      }
    }
  }

  /** `&amp;` is decoded after `&lt;` (steps two and four), so an escaped `&lt;` is decoded only once. */
  lemma AmpAfterLtDecodesOnce()
    ensures ReplaceAll(ReplaceAll("&amp;lt;", "&lt;", "<"), "&amp;", "&") == "&lt;"
  {
    EscapedLtKept();
    AmpDecoded();
  }

  /** Decoding `&amp;` turns `&amp;lt;` into `&lt;`. */
  lemma AmpDecoded()
    ensures ReplaceAll("&amp;lt;", "&amp;", "&") == "&lt;"
  {
    var s := "&amp;lt;";
    assert s[..5] == "&amp;" && s[5..] == "lt;";
    assert ReplaceAll("lt;", "&amp;", "&") == "lt;";
  }

  /** Decoding `&lt;` leaves `&amp;lt;` as it was. */
  lemma EscapedLtKept()
    ensures ReplaceAll("&amp;lt;", "&lt;", "<") == "&amp;lt;"
  {
    var p := "&lt;";
    TailWithoutLt();
    var s := "amp;lt;";
    assert s[..4][0] != p[0] && s[1..] == "mp;lt;";
    ReplaceKeepsUnmatchedHead(s, p, "<");
    var t := "&amp;lt;";
    assert t[..4][1] != p[1] && t[1..] == s;
    ReplaceKeepsUnmatchedHead(t, p, "<");
  }

  /** Where `p` does not start `s`, and replacing in the rest changes nothing, replacing in `s` changes nothing. */
  lemma ReplaceKeepsUnmatchedHead(s: string, p: string, rep: string)
    requires p != [] && |s| >= |p| && s[..|p|] != p
    requires ReplaceAll(s[1..], p, rep) == s[1..]
    ensures ReplaceAll(s, p, rep) == s
  {
    assert s == [s[0]] + s[1..];
  }

  lemma TailWithoutLt()
    ensures ReplaceAll("mp;lt;", "&lt;", "<") == "mp;lt;"
  {
    var p := "&lt;";
    assert ReplaceAll("lt;", p, "<") == "lt;";
    assert ";lt;"[..4][0] != p[0];
    assert ReplaceAll(";lt;", p, "<") == ";lt;";
    assert "p;lt;"[..4][0] != p[0];
    assert ReplaceAll("p;lt;", p, "<") == "p;lt;";
    assert "mp;lt;"[..4][0] != p[0];
  }

  /** `&quot;` is decoded after `&amp;` (steps four and five), so an escaped `&quot;` is decoded twice. */
  lemma QuotAfterAmpDecodesTwice()
    ensures ReplaceAll(ReplaceAll("&amp;quot;", "&amp;", "&"), "&quot;", "\"") == "\""
  {
    assert ReplaceAll("&amp;quot;", "&amp;", "&") == "&quot;";
  }

  /** The capture of `/<tag[^>]*>([\s\S]*?)<\/tag>/i`, when there is a match. */
  function ElementText(html: string, tag: string): (r: Option<string>)
    ensures r.Some? ==> exists sp :: FindElement(html, tag) == Some(sp) && r.value == html[sp.inner..sp.close]
    ensures r.None? ==> FindElement(html, tag).None?
  {
    match FindElement(html, tag)
    case None => None
    case Some(sp) => Some(html[sp.inner..sp.close])
  }

  /** `extractTitleFromHtml`: the trimmed `<title>` text, else the cleaned `<h1>` text, else ''. */
  function ExtractTitleFromHtml(html: string): (t: string)
    ensures t != [] ==> !IsSpace(t[0]) && !IsSpace(t[|t| - 1])
    ensures ElementText(html, "title").Some? && ElementText(html, "title").value != [] ==> t == Trim(ElementText(html, "title").value)
    ensures (ElementText(html, "title").None? || ElementText(html, "title").value == []) && ElementText(html, "h1").None? ==> t == []
    ensures (ElementText(html, "title").None? || ElementText(html, "title").value == []) && ElementText(html, "h1").Some? ==>
              t == if ElementText(html, "h1").value != [] then Trim(CleanHtml(ElementText(html, "h1").value)) else []
  {
    var title := ElementText(html, "title");
    if title.Some? && title.value != [] then Trim(title.value)
    else
      var h1 := ElementText(html, "h1");
      if h1.Some? && h1.value != [] then Trim(CleanHtml(h1.value))
      else ""
  }

  // ---------------------------------------------------------------------
  // Truncation

  predicate IsSentencePunct(c: char) { c == '.' || c == '!' || c == '?' }

  /** A match of `/[.!?](\s|$)/` starts at `k`. */
  predicate IsSentenceEnd(t: string, k: int) {
    0 <= k < |t| && IsSentencePunct(t[k]) && (k + 1 == |t| || IsSpace(t[k + 1]))
  }

  /** `sentenceEndRegex.exec(t)` with `lastIndex == from`: the first sentence end at or after `from`. */
  function NextSentenceEnd(t: string, from: nat): (r: Option<nat>)
    ensures r.Some? ==> from <= r.value && IsSentenceEnd(t, r.value)
    ensures r.Some? ==> forall k :: from <= k < r.value ==> !IsSentenceEnd(t, k)
    ensures r.None? ==> forall k :: from <= k ==> !IsSentenceEnd(t, k)
    decreases |t| - from
  {
    if from >= |t| then None
    else if IsSentenceEnd(t, from) then Some(from)
    else NextSentenceEnd(t, from + 1)
  }

  /** The last sentence end before `n`. */
  function LastSentenceEndBefore(t: string, n: nat): (r: Option<nat>)
    requires n <= |t|
    ensures r.Some? ==> r.value < n && IsSentenceEnd(t, r.value)
    ensures r.Some? ==> forall k :: r.value < k < n ==> !IsSentenceEnd(t, k)
    ensures r.None? ==> forall k :: 0 <= k < n ==> !IsSentenceEnd(t, k)
  {
    if n == 0 then None
    else if IsSentenceEnd(t, n - 1) then Some(n - 1)
    else LastSentenceEndBefore(t, n - 1)
  }

  /** The index of the last sentence end in `t`. */
  function LastSentenceEnd(t: string): (r: Option<nat>)
    ensures r.Some? ==> IsSentenceEnd(t, r.value) && forall k :: r.value < k ==> !IsSentenceEnd(t, k)
    ensures r.None? ==> forall k :: !IsSentenceEnd(t, k)
  {
    LastSentenceEndBefore(t, |t|)
  }

  /**
   * What `truncatePreservingSentences(text, max)` returns: the text when it
   * fits; otherwise its first `max` characters cut after the last sentence
   * end if that lies past the middle, else at the last blank line if that
   * lies past the middle, else followed by `...`.
   */
  function Truncated(text: string, max: nat): (r: string)
    ensures |text| <= max ==> r == text
    ensures |r| <= max + 3
    ensures |text| > max ==> r == text[..max] + "..." || (0 < |r| <= max && r == text[..|r|] && max < 2 * |r|)
  {
    if |text| <= max then text
    else
      var t := text[..max];
      var lastSentence := LastSentenceEnd(t);
      if lastSentence.Some? && 2 * lastSentence.value > max then t[..lastSentence.value + 1]
      else
        var lastParagraph := FindLast(t, "\n\n");
        if lastParagraph.Some? && 2 * lastParagraph.value > max then t[..lastParagraph.value]
        else t + "..."
  }

  /**
   * When the window `text[..max]` has a sentence end past its middle, the
   * result ends at the last sentence end of the window: it never stops
   * mid-sentence.
   */
  lemma TruncatedEndsAtSentence(text: string, max: nat, k: nat)
    requires |text| > max && IsSentenceEnd(text[..max], k) && 2 * k > max
    ensures var r := Truncated(text, max);
      r != [] && IsSentencePunct(r[|r| - 1]) && r == text[..|r|] && IsSentenceEnd(text[..max], |r| - 1)
      && forall j :: |r| - 1 < j < max ==> !IsSentenceEnd(text[..max], j)
  {
    var t := text[..max];
    var last := LastSentenceEnd(t);
    assert last.Some? && last.value >= k;
  }

  /**
   * Without a sentence end past the middle, a blank line past the middle
   * is the cut: the result is the window up to the last `\n\n`, which is
   * left out.
   */
  lemma TruncatedAtBlankLine(text: string, max: nat, p: nat)
    requires |text| > max
    requires forall k :: 2 * k > max ==> !IsSentenceEnd(text[..max], k)
    requires OccursAt(text[..max], "\n\n", p) && 2 * p > max
    requires forall q :: p < q ==> !OccursAt(text[..max], "\n\n", q)
    ensures Truncated(text, max) == text[..p]
  {
    var t := text[..max];
    assert FindLast(t, "\n\n") == Some(p);
    assert t[..p] == text[..p];
  }

  /** Without a sentence end or a blank line past the middle, the window is cut hard and marked with `...`. */
  lemma TruncatedHardCut(text: string, max: nat)
    requires |text| > max
    requires forall k :: 2 * k > max ==> !IsSentenceEnd(text[..max], k)
    requires forall p :: 2 * p > max ==> !OccursAt(text[..max], "\n\n", p)
    ensures Truncated(text, max) == text[..max] + "..."
  {
  }

  /**
   * `truncatePreservingSentences`: the regular expression is run with its
   * `lastIndex` from match to match, remembering the last match.
   */
  method TruncatePreservingSentences(text: string, maxLength: nat) returns (r: string)
    ensures r == Truncated(text, maxLength)
  {
    if |text| <= maxLength {
      return text;
    }
    var truncated := text[..maxLength];
    var lastMatch: Option<nat> := None;
    var lastIndex: nat := 0;
    var m := NextSentenceEnd(truncated, lastIndex);
    while m.Some?
      invariant lastIndex <= |truncated|
      invariant m == NextSentenceEnd(truncated, lastIndex)
      invariant lastMatch.Some? ==> lastMatch.value < lastIndex && IsSentenceEnd(truncated, lastMatch.value)
      invariant forall k :: 0 <= k < lastIndex && (lastMatch.None? || lastMatch.value < k) ==> !IsSentenceEnd(truncated, k)
      decreases |truncated| - lastIndex
    {
      lastMatch := m;
      lastIndex := if m.value + 1 < |truncated| then m.value + 2 else m.value + 1;
      m := NextSentenceEnd(truncated, lastIndex);
    }
    assert lastMatch == LastSentenceEnd(truncated) by {
      var last := LastSentenceEnd(truncated);
      if last.Some? {
        assert lastMatch.Some? && lastMatch.value == last.value;
      } else {
        assert lastMatch.None?;
      }
    }
    if lastMatch.Some? && 2 * lastMatch.value > maxLength {
      return truncated[..lastMatch.value + 1];
    }
    var lastParagraph := FindLast(truncated, "\n\n");
    if lastParagraph.Some? && 2 * lastParagraph.value > maxLength {
      return truncated[..lastParagraph.value];
    }
    return truncated + "...";
  }

  /** `createSnippet(content, maxLength)`: '' for '', the content when it fits, else the truncation. */
  function CreateSnippet(content: string, maxLength: nat): (r: string)
    ensures r == [] <==> content == []
    ensures |content| <= maxLength ==> r == content
    ensures |r| <= maxLength + 3
    ensures |content| > maxLength ==> r == Truncated(content, maxLength)
  {
    if content == [] then []
    else if |content| <= maxLength then content
    else Truncated(content, maxLength)
  }

  // ---------------------------------------------------------------------
  // The extraction cascade of `fetchFromUrl`

  /** `CustomSourceResult`. */
  datatype Extraction = Extraction(title: string, url: string, content: string)

  /** What `new Readability(dom.window.document).parse()` returned; `None` in `Page` also covers a missing library or a throw. */
  datatype Article = Article(title: Option<string>, content: Option<string>)

  /** The fields of the first JSON-LD object that the cascade reads (`None` where a field is missing or not a string). */
  datatype JsonLd = JsonLd(
    headline: Option<string>, name: Option<string>, title: Option<string>,
    articleBody: Option<string>, description: Option<string>, text: Option<string>,
    url: Option<string>)

  /**
   * What the regular expressions of `extractMainContent` capture: the group
   * of each of the four container patterns in order, the group of each
   * `<p>` match in order, and the `<body>` group.
   */
  datatype MainParts = MainParts(containers: seq<Option<string>>, paragraphs: seq<string>, body: Option<string>)

  /**
   * What `extractAllText` works on: the JSDOM `textContent` when that
   * library is loaded and did not throw, else the groups of the `>([^<]+)<`
   * matches in order.
   */
  datatype AllTextParts = AllTextParts(domText: Option<string>, fragments: seq<string>)

  /** A fetched page and the outputs of the parsers run on it. */
  datatype Page = Page(html: string, readability: Option<Article>, jsonLd: Option<JsonLd>, main: MainParts, allText: AllTextParts)

  /** The outcome of `axios.get`: a response (with its body when it is a string), or a thrown error. */
  datatype Fetched = Response(status: int, page: Option<Page>) | Thrown

  /**
   * Each container group's cleaned text, when the group is non-empty
   * (`match && match[1]`), in pattern order; `clean` is `CleanHtml`, passed
   * in so that reasoning about the list does not unfold the clean-up.
   */
  function CleanedGroups(containers: seq<Option<string>>, clean: string -> string): (r: seq<Option<string>>)
    ensures |r| == |containers|
    ensures forall i :: 0 <= i < |r| ==> (r[i].Some? <==> Truthy(containers[i]))
  {
    if containers == [] then []
    else [if Truthy(containers[0]) then Some(clean(containers[0].value)) else None] + CleanedGroups(containers[1..], clean)
  }

  /** The entry for group `i` is its cleaned text when the group is non-empty, and nothing otherwise. */
  lemma {:induction false} CleanedGroupAt(containers: seq<Option<string>>, clean: string -> string, i: nat)
    requires i < |containers|
    ensures CleanedGroups(containers, clean)[i] == if Truthy(containers[i]) then Some(clean(containers[i].value)) else None
  {
    if i > 0 {
      CleanedGroupAt(containers[1..], clean, i - 1);
    }
  }

  /** A cleaned group counts when it is longer than 300 characters. */
  predicate IsLongContainer(c: Option<string>) {
    c.Some? && |c.value| > 300
  }

  /** The index of the first cleaned group, by pattern order, that counts. */
  function FirstLongContainer(cleaned: seq<Option<string>>): (r: Option<nat>)
    ensures r.Some? ==> r.value < |cleaned| && IsLongContainer(cleaned[r.value])
    ensures r.Some? ==> forall i :: 0 <= i < r.value ==> !IsLongContainer(cleaned[i])
    ensures r.None? ==> forall i :: 0 <= i < |cleaned| ==> !IsLongContainer(cleaned[i])
  {
    if cleaned == [] then None
    else if IsLongContainer(cleaned[0]) then Some(0)
    else
      var r := FirstLongContainer(cleaned[1..]);
      assert forall i :: 1 <= i < |cleaned| ==> cleaned[i] == cleaned[1..][i - 1];
      if r.Some? then Some(r.value + 1) else None
  }

  /** A cleaned group that counts, after none that does, is the first. */
  lemma FirstLongContainerAt(cleaned: seq<Option<string>>, i: nat)
    requires i < |cleaned| && IsLongContainer(cleaned[i])
    requires forall k :: 0 <= k < i ==> !IsLongContainer(cleaned[k])
    ensures FirstLongContainer(cleaned) == Some(i)
  {
  }

  /** The cleaned `<p>` texts longer than 20 characters, in order. */
  function KeptParagraphs(groups: seq<string>): (r: seq<string>)
    ensures |r| <= |groups|
    ensures forall i :: 0 <= i < |r| ==> |r[i]| > 20 && '\n' !in r[i]
  {
    if groups == [] then []
    else
      var init := KeptParagraphs(groups[..|groups| - 1]);
      var last := KeptGroup(groups[|groups| - 1]);
      KeptAppend(init, last);
      init + last
  }

  /** The kept paragraphs of two runs of groups are those of the first run, then those of the second: every group is judged on its own, in order. */
  lemma {:induction false} KeptParagraphsConcat(a: seq<string>, b: seq<string>)
    ensures KeptParagraphs(a + b) == KeptParagraphs(a) + KeptParagraphs(b)
    decreases |b|
  {
    if b == [] {
      assert a + b == a;
    } else {
      var init, g := b[..|b| - 1], b[|b| - 1];
      KeptParagraphsConcat(a, init);
      Seqs.InitLast(b);
      KeptConcatStep(a, init, g);
    }
  }

  lemma KeptConcatStep(a: seq<string>, init: seq<string>, g: string)
    requires KeptParagraphs(a + init) == KeptParagraphs(a) + KeptParagraphs(init)
    ensures KeptParagraphs(a + (init + [g])) == KeptParagraphs(a) + KeptParagraphs(init + [g])
  {
    Seqs.SnocAssoc(a, init, g);
    KeptSnoc(a + init, g);
    KeptSnoc(init, g);
    Seqs.Assoc(KeptParagraphs(a), KeptParagraphs(init), KeptGroup(g));
  }

  lemma KeptSnoc(groups: seq<string>, g: string)
    ensures KeptParagraphs(groups + [g]) == KeptParagraphs(groups) + KeptGroup(g)
  {
    Seqs.ConcatInit(groups, [g]);
  }

  /** A single group contributes its cleaned text exactly when that text is longer than 20 characters. */
  lemma KeptParagraphsOne(g: string)
    ensures KeptParagraphs([g]) == if g != [] && |CleanHtml(g)| > 20 then [CleanHtml(g)] else []
  {
    assert [g][..0] == [];
  }

  /** One `<p>` group's contribution: its cleaned text when the group is non-empty and that text is longer than 20 characters. */
  function KeptGroup(group: string): (r: seq<string>)
    ensures |r| <= 1
    ensures forall i :: 0 <= i < |r| ==> |r[i]| > 20 && '\n' !in r[i]
  {
    if group != [] && |CleanHtml(group)| > 20 then
      CleanHtmlSpacing(group);
      [CleanHtml(group)]
    else []
  }

  lemma KeptAppend(init: seq<string>, last: seq<string>)
    requires forall i :: 0 <= i < |init| ==> |init[i]| > 20 && '\n' !in init[i]
    requires forall i :: 0 <= i < |last| ==> |last[i]| > 20 && '\n' !in last[i]
    ensures forall i :: 0 <= i < |init + last| ==> |(init + last)[i]| > 20 && '\n' !in (init + last)[i]
  {
    forall i | 0 <= i < |init + last| ensures |(init + last)[i]| > 20 && '\n' !in (init + last)[i] {
      if i >= |init| { assert (init + last)[i] == last[i - |init|]; }
    }
  }

  /** What `extractMainContent` returns. */
  function MainContent(p: MainParts): (r: string)
    ensures var f := FirstLongContainer(CleanedGroups(p.containers, CleanHtml));
      f.Some? ==> |r| > 300 && r == CleanHtml(p.containers[f.value].value)
    ensures FirstLongContainer(CleanedGroups(p.containers, CleanHtml)).None? && KeptParagraphs(p.paragraphs) != [] ==>
              |r| > 20 && StartsWith(r, KeptParagraphs(p.paragraphs)[0]) && r == Join(KeptParagraphs(p.paragraphs), "\n\n")
    ensures FirstLongContainer(CleanedGroups(p.containers, CleanHtml)).None? && KeptParagraphs(p.paragraphs) == [] ==>
              r == if Truthy(p.body) then CleanHtml(p.body.value) else ""
    ensures FirstLongContainer(CleanedGroups(p.containers, CleanHtml)).None? && KeptParagraphs(p.paragraphs) == [] ==> '\n' !in r
  {
    var cleaned := CleanedGroups(p.containers, CleanHtml);
    match FirstLongContainer(cleaned)
    case Some(i) =>
      CleanedGroupAt(p.containers, CleanHtml, i);
      cleaned[i].value
    case None =>
      var kept := KeptParagraphs(p.paragraphs);
      if kept != [] then
        JoinStartsWithFirst(kept, "\n\n");
        Join(kept, "\n\n")
      else if Truthy(p.body) then
        CleanHtmlSpacing(p.body.value);
        CleanHtml(p.body.value)
      else ""
  }

  lemma JoinStartsWithFirst(parts: seq<string>, sep: string)
    requires parts != []
    ensures StartsWith(Join(parts, sep), parts[0])
  {
    if |parts| > 1 {
      assert Join(parts, sep) == parts[0] + (sep + Join(parts[1..], sep));
    }
  }

  /** `extractMainContent`: the containers in order, then the `<p>` loop, then the body. */
  method ExtractMainContent(p: MainParts) returns (r: string)
    ensures r == MainContent(p)
  {
    var container := FindLongContainer(p.containers);
    if container.Some? {
      return container.value;
    }
    var paragraphs := CollectParagraphs(p.paragraphs);
    if |paragraphs| > 0 {
      return Join(paragraphs, "\n\n");
    }
    if p.body.Some? && p.body.value != [] {
      return CleanHtml(p.body.value);
    }
    return "";
  }

  /** The container loop of `extractMainContent`: the cleaned text of the first container group that counts. */
  method FindLongContainer(containers: seq<Option<string>>) returns (r: Option<string>)
    ensures var f := FirstLongContainer(CleanedGroups(containers, CleanHtml));
      (f.None? ==> r.None?) && (f.Some? ==> r == Some(CleanHtml(containers[f.value].value)))
  {
    ghost var groups := CleanedGroups(containers, CleanHtml);
    var i := 0;
    while i < |containers|
      invariant 0 <= i <= |containers|
      invariant forall k :: 0 <= k < i ==> !IsLongContainer(groups[k])
    {
      CleanedGroupAt(containers, CleanHtml, i);
      var m := containers[i];
      if m.Some? && m.value != [] {
        var cleaned := CleanHtml(m.value);
        if |cleaned| > 300 {
          FirstLongContainerAt(groups, i);
          return Some(cleaned);
        }
        assert groups[i] == Some(cleaned);
      } else {
        assert groups[i] == None;
      }
      i := i + 1;
    }
    return None;
  }

  /** The `<p>` loop of `extractMainContent`: each non-empty group cleaned, kept when longer than 20 characters. */
  method CollectParagraphs(groups: seq<string>) returns (paragraphs: seq<string>)
    ensures paragraphs == KeptParagraphs(groups)
  {
    paragraphs := [];
    var j := 0;
    while j < |groups|
      invariant 0 <= j <= |groups|
      invariant paragraphs == KeptParagraphs(groups[..j])
    {
      var group := groups[j];
      KeptStep(groups, j);
      if group != [] {
        var text := CleanHtml(group);
        if |text| > 20 {
          paragraphs := paragraphs + [text];
        } else {
          assert KeptGroup(group) == [];
        }
      } else {
        assert KeptGroup(group) == [];
      }
      j := j + 1;
    }
    assert groups[..j] == groups;
  }

  /** One more group: kept, cleaned, when non-empty and longer than 20 characters once cleaned. */
  lemma KeptStep(groups: seq<string>, j: nat)
    requires j < |groups|
    ensures KeptParagraphs(groups[..j + 1]) ==
      KeptParagraphs(groups[..j]) + KeptGroup(groups[j])
  {
    assert groups[..j + 1][..j] == groups[..j];
  }

  /** The text the fallback loop of `extractAllText` builds: `' ' + fragment.trim()` for each non-blank fragment. */
  function JoinedFragments(fragments: seq<string>): string {
    if fragments == [] then ""
    else
      var init := JoinedFragments(fragments[..|fragments| - 1]);
      var t := Trim(fragments[|fragments| - 1]);
      if t != [] then init + " " + t else init
  }

  /** What `extractAllText` returns. */
  function AllText(p: AllTextParts): (r: string)
    ensures r != [] ==> !IsSpace(r[0]) && !IsSpace(r[|r| - 1])
    ensures NoAdjacentSpaces(r) && OnlyPlainSpaces(r)
  {
    SqueezeSpacing(RawText(p));
    Squeeze(RawText(p))
  }

  /** Only whitespace differs between the text and what was extracted: every other character is kept, in order. */
  lemma AllTextKeepsVisible(p: AllTextParts)
    ensures Filter(AllText(p), NotSpace) == Filter(RawText(p), NotSpace)
  {
    SqueezeKeepsVisible(RawText(p));
  }

  /** The text before squeezing: the JSDOM text, or what the fragment loop builds. */
  function RawText(p: AllTextParts): string {
    if p.domText.Some? then p.domText.value else JoinedFragments(p.fragments)
  }

  /** `extractAllText`: the JSDOM text, or the fragment loop, squeezed. */
  method ExtractAllText(p: AllTextParts) returns (r: string)
    ensures r == AllText(p)
  {
    if p.domText.Some? {
      return Squeeze(p.domText.value);
    }
    var textContent := CollectFragments(p.fragments);
    return Squeeze(textContent);
  }

  /** The fallback loop of `extractAllText`: each non-blank fragment, trimmed, after a space. */
  method CollectFragments(fragments: seq<string>) returns (textContent: string)
    ensures textContent == JoinedFragments(fragments)
  {
    textContent := "";
    var i := 0;
    while i < |fragments|
      invariant 0 <= i <= |fragments|
      invariant textContent == JoinedFragments(fragments[..i])
    {
      JoinedFragmentsStep(fragments, i);
      var t := Trim(fragments[i]);
      if t != [] {
        textContent := textContent + " " + t;
      } else {
        assert JoinedFragments(fragments[..i + 1]) == textContent;
      }
      i := i + 1;
    }
    assert fragments[..i] == fragments;
  }

  lemma JoinedFragmentsStep(fragments: seq<string>, i: nat)
    requires i < |fragments|
    ensures Trim(fragments[i]) != [] ==>
      JoinedFragments(fragments[..i + 1]) == JoinedFragments(fragments[..i]) + " " + Trim(fragments[i])
    ensures Trim(fragments[i]) == [] ==> JoinedFragments(fragments[..i + 1]) == JoinedFragments(fragments[..i])
  {
    assert fragments[..i + 1][..i] == fragments[..i];
    assert fragments[..i + 1][i] == fragments[i];
  }

  /** `a || b`. */
  function Or(a: string, b: string): (r: string)
    ensures r != [] <==> a != [] || b != []
    ensures a != [] ==> r == a
    ensures a == [] ==> r == b
  {
    if a != [] then a else b
  }

  /** Strategy 1: Readability, accepted when its raw content exceeds 200 and its cleaned content 300 characters. */
  function ReadabilityStep(url: string, p: Page, htmlTitle: string): (r: Option<Extraction>)
    ensures r.Some? <==> p.readability.Some? && Truthy(p.readability.value.content)
                          && |p.readability.value.content.value| > 200 && |CleanHtml(p.readability.value.content.value)| > 300
    ensures r.Some? ==> r.value.url == url && |r.value.content| > 300
    ensures r.Some? && url != [] ==> r.value.title != []
  {
    if p.readability.Some? && Truthy(p.readability.value.content) && |p.readability.value.content.value| > 200
       && |CleanHtml(p.readability.value.content.value)| > 300 then
      var a := p.readability.value;
      var content := CleanHtml(a.content.value);
      TrimOfTrimmed(content);
      Some(Extraction(Or(Or(Trim(a.title.GetOr("")), htmlTitle), url), url, Trim(content)))
    else None
  }

  lemma TrimOfTrimmed(s: string)
    requires s != [] ==> !IsSpace(s[0]) && !IsSpace(s[|s| - 1])
    ensures Trim(s) == s
  {
    assert TrimStart(s) == s;
  }

  /** The first truthy string of the list, else ''. */
  function FirstTruthy(xs: seq<Option<string>>): (r: string)
    ensures r != [] <==> exists i :: 0 <= i < |xs| && Truthy(xs[i])
    ensures r != [] ==> exists i :: 0 <= i < |xs| && Truthy(xs[i]) && r == xs[i].value && forall j :: 0 <= j < i ==> !Truthy(xs[j])
  {
    if xs == [] then ""
    else if Truthy(xs[0]) then xs[0].value
    else
      assert forall i :: 1 <= i < |xs| ==> xs[i] == xs[1..][i - 1];
      FirstTruthy(xs[1..])
  }

  /** Strategy 2 (`extractStructuredData`): a JSON-LD object with a title and more than 200 characters of content. */
  function StructuredStep(j: Option<JsonLd>): (r: Option<Extraction>)
    ensures r.Some? <==> j.Some? && FirstTruthy([j.value.headline, j.value.name, j.value.title]) != []
                          && |FirstTruthy([j.value.articleBody, j.value.description, j.value.text])| > 200
    ensures r.Some? ==> r.value.url == OrElse(j.value.url, "")
  {
    match j
    case None => None
    case Some(o) =>
      var title := FirstTruthy([o.headline, o.name, o.title]);
      var content := FirstTruthy([o.articleBody, o.description, o.text]);
      if title != [] && content != [] && |content| > 200 then Some(Extraction(Trim(title), OrElse(o.url, ""), Trim(content)))
      else None
  }

  /** The content cap of the pattern strategy. */
  const MAX_CONTENT: nat := 15000

  /** Strategy 3: the main-content patterns, accepted above 300 characters; the only strategy that truncates. */
  function PatternStep(url: string, p: Page, title: string): (r: Option<Extraction>)
    ensures r.Some? <==> |MainContent(p.main)| > 300
    ensures r.Some? ==> r.value.url == url && r.value.title == Trim(title)
    ensures r.Some? ==> |r.value.content| <= MAX_CONTENT + 3
  {
    var content := MainContent(p.main);
    if content != [] && |content| > 300 then
      var kept := if |content| > MAX_CONTENT then Truncated(content, MAX_CONTENT) else content;
      TrimLength(kept);
      Some(Extraction(Trim(title), url, Trim(kept)))
    else None
  }

  lemma TrimLength(s: string)
    ensures |Trim(s)| <= |s|
  {
  }

  /** Strategy 4: all visible text, accepted above 200 characters. */
  function AllTextStep(url: string, p: Page, title: string): (r: Option<Extraction>)
    ensures r.Some? <==> |AllText(p.allText)| > 200
    ensures r.Some? ==> r.value.url == url && |r.value.content| > 200 && r.value.title == Or(title, url)
  {
    var content := AllText(p.allText);
    if content != [] && |content| > 200 then
      TrimOfTrimmed(content);
      Some(Extraction(Or(title, url), url, Trim(content)))
    else None
  }

  /** The four strategies in the order `fetchFromUrl` tries them. */
  function Strategies(url: string, p: Page): seq<Option<Extraction>> {
    var htmlTitle := ExtractTitleFromHtml(p.html);
    var title := Or(htmlTitle, url);
    [ReadabilityStep(url, p, htmlTitle), StructuredStep(p.jsonLd), PatternStep(url, p, title), AllTextStep(url, p, title)]
  }

  /** `r` is the first present entry of `xs`, or nothing exactly when every entry is absent. */
  predicate IsFirstPresent(xs: seq<Option<Extraction>>, r: Option<Extraction>) {
    (r.None? <==> forall k :: 0 <= k < |xs| ==> xs[k].None?)
    && (r.Some? ==> exists k :: 0 <= k < |xs| && r == xs[k] && forall j :: 0 <= j < k ==> xs[j].None?)
  }

  /** The first strategy output that is present. */
  function FirstPresent(xs: seq<Option<Extraction>>): (r: Option<Extraction>)
    ensures IsFirstPresent(xs, r)
  {
    if xs == [] then None
    else if xs[0].Some? then xs[0]
    else
      assert forall k :: 1 <= k < |xs| ==> xs[k] == xs[1..][k - 1];
      FirstPresent(xs[1..])
  }

  /**
   * `fetchFromUrl`: nothing for an invalid URL, a thrown request, a status
   * other than 200 or an empty or non-string body; otherwise the first
   * strategy that passes its threshold, or nothing.
   */
  function FetchFromUrl(url: string, fetched: Fetched): (r: Option<Extraction>)
    ensures !IsValidUrl(url) || fetched.Thrown? ==> r.None?
    ensures fetched.Response? && (fetched.status != 200 || fetched.page.None? || fetched.page.value.html == []) ==> r.None?
    ensures IsValidUrl(url) && fetched.Response? && fetched.status == 200 && fetched.page.Some? && fetched.page.value.html != [] ==>
              IsFirstPresent(Strategies(url, fetched.page.value), r)
  {
    if !IsValidUrl(url) then None
    else
      match fetched
      case Thrown => None
      case Response(status, page) =>
        if status != 200 || page.None? || page.value.html == [] then None
        else FirstPresent(Strategies(url, page.value))
  }

  // ---------------------------------------------------------------------
  // One URL and the batch

  /** The outcome of one promise under `Promise.allSettled`. */
  datatype Settled<+R> = Fulfilled(value: R) | Rejected(reason: string)

  /** The snippet of a fetched page: the content up to 300 characters, else its first 300 and `...`. */
  function PageSnippet(content: string): (r: string)
    ensures |content| <= 300 ==> r == content
    ensures |content| > 300 ==> |r| == 303 && r[..300] == content[..300] && r[300..] == "..."
  {
    if |content| > 300 then content[..300] + "..." else content
  }

  /** The record `fetchSingleUrl` builds for a fetched page. */
  function PageSource(url: string, e: Extraction): (s: SearchResult)
    ensures s.url == Some(url) && s.title == Some(e.title) && s.content == Some(e.content)
    ensures s.snippet == Some(PageSnippet(e.content)) && s.source == CUSTOM && s.used == Some(false)
    ensures s.priority.None? && s.position.None? && s.date.None?
  {
    SearchResult(Some(url), Some(e.title), Some(e.content), Some(PageSnippet(e.content)), CUSTOM, None, None, Some(false), None)
  }

  const INVALID_URL_REASON: string := "Error: Invalid URL format"

  /** `fetchSingleUrl`: rejects an invalid URL, else the page record, or null when nothing was extracted. */
  function FetchSingleUrl(url: string, fetched: Fetched): (r: Settled<Option<SearchResult>>)
    ensures r.Rejected? <==> !IsValidUrl(url)
    ensures r.Rejected? ==> r.reason == INVALID_URL_REASON
    ensures r.Fulfilled? && r.value.Some? ==> FetchFromUrl(url, fetched).Some? && r.value.value == PageSource(url, FetchFromUrl(url, fetched).value)
    ensures r.Fulfilled? && r.value.None? ==> FetchFromUrl(url, fetched).None?
  {
    if !IsValidUrl(url) then Rejected(INVALID_URL_REASON)
    else
      match FetchFromUrl(url, fetched)
      case None => Fulfilled(None)
      case Some(e) => Fulfilled(Some(PageSource(url, e)))
  }

  /** What `fetchFromCustomSources` returns. */
  datatype CustomBatch = CustomBatch(sources: seq<SearchResult>, error: Option<string>)

  const NO_URLS: string := "No custom URLs provided"

  /** The URLs that fail `isValidUrl`, in input order. */
  function InvalidUrls(urls: seq<string>): (r: seq<string>)
    ensures forall i :: 0 <= i < |r| ==> r[i] in urls && !IsValidUrl(r[i])
    ensures forall u :: u in urls && !IsValidUrl(u) ==> u in r
    ensures r == [] <==> forall i :: 0 <= i < |urls| ==> IsValidUrl(urls[i])
  {
    if urls == [] then []
    else
      var init := InvalidUrls(urls[..|urls| - 1]);
      var u := urls[|urls| - 1];
      SnocMembers(urls);
      if IsValidUrl(u) then init else init + [u]
  }

  lemma SnocMembers(urls: seq<string>)
    requires urls != []
    ensures forall i :: 0 <= i < |urls| - 1 ==> urls[i] == urls[..|urls| - 1][i]
    ensures forall x :: x in urls <==> x in urls[..|urls| - 1] || x == urls[|urls| - 1]
  {
    assert urls == urls[..|urls| - 1] + [urls[|urls| - 1]];
  }

  /** The non-null fulfilled values, in order. */
  function SettledSources(settled: seq<Settled<Option<SearchResult>>>): (r: seq<SearchResult>)
    ensures |r| <= |settled|
  {
    if settled == [] then []
    else
      var init := SettledSources(settled[..|settled| - 1]);
      var last := settled[|settled| - 1];
      if last.Fulfilled? && last.value.Some? then init + [last.value.value] else init
  }

  /** One message per rejected URL, in order. */
  function SettledErrors(urls: seq<string>, settled: seq<Settled<Option<SearchResult>>>): (r: seq<string>)
    requires |urls| == |settled|
    ensures |r| <= |settled|
    ensures r == [] <==> forall i :: 0 <= i < |settled| ==> settled[i].Fulfilled?
  {
    if settled == [] then []
    else
      var n := |settled| - 1;
      var init := SettledErrors(urls[..n], settled[..n]);
      assert forall i :: 0 <= i < n ==> settled[i] == settled[..n][i];
      if settled[n].Rejected? then init + ["Failed to fetch content from " + urls[n] + ": " + settled[n].reason] else init
  }

  /** The batch result made from the settled outcomes of the unique URLs. */
  function GatheredBatch(urls: seq<string>, settled: seq<Settled<Option<SearchResult>>>): (b: CustomBatch)
    requires |urls| == |settled|
    ensures b.sources == SettledSources(settled)
    ensures b.error.Some? <==> exists i :: 0 <= i < |settled| && settled[i].Rejected?
  {
    var errors := SettledErrors(urls, settled);
    if errors != [] then
      CustomBatch(SettledSources(settled), Some("Failed to fetch content from " + NatToString(|errors|) + " URLs: " + Join(errors, "; ")))
    else CustomBatch(SettledSources(settled), None)
  }

  /** The outcome of `fetchSingleUrl` for each URL, in order. */
  function SettleAll(urls: seq<string>, network: string -> Fetched): (r: seq<Settled<Option<SearchResult>>>)
    ensures |r| == |urls|
  {
    if urls == [] then []
    else
      var n := |urls| - 1;
      SettleAll(urls[..n], network) + [FetchSingleUrl(urls[n], network(urls[n]))]
  }

  /** Only an invalid URL is rejected. */
  predicate RejectsOnlyInvalid(urls: seq<string>, settled: seq<Settled<Option<SearchResult>>>) {
    |urls| == |settled| && forall i :: 0 <= i < |urls| ==> (settled[i].Rejected? <==> !IsValidUrl(urls[i]))
  }

  /** A fetched page is a `custom` record of its own URL, not yet used. */
  predicate RecordsOwnUrl(urls: seq<string>, settled: seq<Settled<Option<SearchResult>>>) {
    |urls| == |settled|
    && forall i :: 0 <= i < |urls| && settled[i].Fulfilled? && settled[i].value.Some? ==>
         var s := settled[i].value.value;
         s.url == Some(urls[i]) && s.source == CUSTOM && s.used == Some(false)
  }

  /** One URL's outcome, in the terms of `RejectsOnlyInvalid` and `RecordsOwnUrl`. */
  lemma FetchSingleUrlFor(url: string, fetched: Fetched)
    ensures RejectsOnlyInvalid([url], [FetchSingleUrl(url, fetched)]) && RecordsOwnUrl([url], [FetchSingleUrl(url, fetched)])
  {
    var r := FetchSingleUrl(url, fetched);
    if r.Fulfilled? && r.value.Some? {
      assert r.value.value == PageSource(url, FetchFromUrl(url, fetched).value);
    }
  }

  lemma {:induction false} SettleAllFor(urls: seq<string>, network: string -> Fetched)
    ensures RejectsOnlyInvalid(urls, SettleAll(urls, network)) && RecordsOwnUrl(urls, SettleAll(urls, network))
  {
    if urls != [] {
      var n := |urls| - 1;
      SettleAllFor(urls[..n], network);
      FetchSingleUrlFor(urls[n], network(urls[n]));
      SettleAllSnoc(urls, network);
      SettledForConcat(urls[..n], [urls[n]], SettleAll(urls[..n], network), [FetchSingleUrl(urls[n], network(urls[n]))]);
    }
  }

  lemma SettleAllSnoc(urls: seq<string>, network: string -> Fetched)
    requires urls != []
    ensures var n := |urls| - 1;
      urls == urls[..n] + [urls[n]]
      && SettleAll(urls, network) == SettleAll(urls[..n], network) + [FetchSingleUrl(urls[n], network(urls[n]))]
  {
    Seqs.InitLast(urls);
  }

  /** The two properties carry over to concatenations. */
  lemma SettledForConcat(u1: seq<string>, u2: seq<string>, s1: seq<Settled<Option<SearchResult>>>, s2: seq<Settled<Option<SearchResult>>>)
    requires RejectsOnlyInvalid(u1, s1) && RecordsOwnUrl(u1, s1)
    requires RejectsOnlyInvalid(u2, s2) && RecordsOwnUrl(u2, s2)
    ensures RejectsOnlyInvalid(u1 + u2, s1 + s2) && RecordsOwnUrl(u1 + u2, s1 + s2)
  {
    forall i | |u1| <= i < |u1| + |u2| ensures (u1 + u2)[i] == u2[i - |u1|] && (s1 + s2)[i] == s2[i - |u1|] {}
  }

  /** Records of distinct URLs from `urls`, each of the `custom` kind and not yet used. */
  predicate DistinctCustomRecords(s: seq<SearchResult>, urls: seq<string>) {
    (forall i :: 0 <= i < |s| ==> s[i].url.Some? && s[i].url.value in urls && s[i].source == CUSTOM && s[i].used == Some(false))
    && forall i, j :: 0 <= i < j < |s| ==> s[i].url != s[j].url
  }

  /** The sources gathered from the outcomes of distinct URLs are `custom` records of distinct URLs from the list. */
  lemma {:induction false} SettledSourcesDistinct(urls: seq<string>, settled: seq<Settled<Option<SearchResult>>>)
    requires Seqs.NoDuplicates(urls) && RecordsOwnUrl(urls, settled)
    ensures DistinctCustomRecords(SettledSources(settled), urls)
  {
    if settled != [] {
      var n := |settled| - 1;
      assert RecordsOwnUrl(urls[..n], settled[..n]);
      assert Seqs.NoDuplicates(urls[..n]);
      SettledSourcesDistinct(urls[..n], settled[..n]);
      var s0 := SettledSources(settled[..n]);
      assert forall x :: x in urls[..n] ==> x in urls;
      var last := settled[n];
      if last.Fulfilled? && last.value.Some? {
        var s := SettledSources(settled);
        assert s == s0 + [last.value.value];
        assert last.value.value.url == Some(urls[n]);
        assert urls[n] !in urls[..n];
        forall i, j | 0 <= i < j < |s| ensures s[i].url != s[j].url {
          assert s[i] == s0[i];
          if j < |s0| {
            assert s[j] == s0[j];
          } else {
            assert s[j] == last.value.value;
            assert s0[i].url.value in urls[..n];
          }
        }
      } else {
        assert SettledSources(settled) == s0;
      }
    }
  }

  /** What `fetchFromCustomSources(urls)` returns when `network(u)` is what fetching `u` gives. */
  function CustomSourcesResult(urls: seq<string>, network: string -> Fetched): (b: CustomBatch)
    ensures urls == [] ==> b == CustomBatch([], Some(NO_URLS))
    ensures urls != [] && InvalidUrls(urls) != [] ==> b == CustomBatch([], Some("Invalid URLs detected: " + Join(InvalidUrls(urls), ", ")))
  {
    if urls == [] then CustomBatch([], Some(NO_URLS))
    else if InvalidUrls(urls) != [] then CustomBatch([], Some("Invalid URLs detected: " + Join(InvalidUrls(urls), ", ")))
    else
      var unique := Seqs.Dedupe(urls);
      GatheredBatch(unique, SettleAll(unique, network))
  }

  /**
   * `fetchFromCustomSources`: validation first (nothing is fetched when a URL
   * is invalid), then the unique URLs are fetched and the settled outcomes
   * gathered in URL order.
   */
  method FetchFromCustomSources(urls: seq<string>, network: string -> Fetched) returns (b: CustomBatch)
    ensures b == CustomSourcesResult(urls, network)
  {
    if |urls| == 0 {
      return CustomBatch([], Some(NO_URLS));
    }
    var invalidUrls := CollectInvalid(urls);
    if |invalidUrls| > 0 {
      return CustomBatch([], Some("Invalid URLs detected: " + Join(invalidUrls, ", ")));
    }
    var uniqueUrls := Seqs.Dedupe(urls);
    var results := SettleAll(uniqueUrls, network);
    b := GatherSettled(uniqueUrls, results);
  }

  /** The validation `forEach` of `fetchFromCustomSources`: every invalid URL, in order. */
  method CollectInvalid(urls: seq<string>) returns (invalidUrls: seq<string>)
    ensures invalidUrls == InvalidUrls(urls)
  {
    invalidUrls := [];
    var i := 0;
    while i < |urls|
      invariant 0 <= i <= |urls|
      invariant invalidUrls == InvalidUrls(urls[..i])
    {
      InvalidStep(urls, i);
      if !IsValidUrl(urls[i]) {
        invalidUrls := invalidUrls + [urls[i]];
      }
      i := i + 1;
    }
    assert urls[..i] == urls;
  }

  /** One more URL: listed as invalid exactly when it is not a valid URL. */
  lemma InvalidStep(urls: seq<string>, i: nat)
    requires i < |urls|
    ensures IsValidUrl(urls[i]) ==> InvalidUrls(urls[..i + 1]) == InvalidUrls(urls[..i])
    ensures !IsValidUrl(urls[i]) ==> InvalidUrls(urls[..i + 1]) == InvalidUrls(urls[..i]) + [urls[i]]
  {
    assert urls[..i + 1][..i] == urls[..i];
  }

  /** The `forEach` over the settled outcomes of `fetchFromCustomSources`. */
  method GatherSettled(uniqueUrls: seq<string>, results: seq<Settled<Option<SearchResult>>>) returns (b: CustomBatch)
    requires |uniqueUrls| == |results|
    ensures b == GatheredBatch(uniqueUrls, results)
  {
    var sources: seq<SearchResult> := [];
    var errors: seq<string> := [];
    var k := 0;
    while k < |results|
      invariant 0 <= k <= |results|
      invariant sources == SettledSources(results[..k])
      invariant errors == SettledErrors(uniqueUrls[..k], results[..k])
    {
      assert results[..k + 1][..k] == results[..k];
      assert uniqueUrls[..k + 1][..k] == uniqueUrls[..k];
      var result := results[k];
      if result.Fulfilled? {
        if result.value.Some? {
          sources := sources + [result.value.value];
        }
      } else {
        errors := errors + ["Failed to fetch content from " + uniqueUrls[k] + ": " + result.reason];
      }
      k := k + 1;
    }
    assert results[..k] == results && uniqueUrls[..k] == uniqueUrls;
    if |errors| > 0 {
      return CustomBatch(sources, Some("Failed to fetch content from " + NatToString(|errors|) + " URLs: " + Join(errors, "; ")));
    }
    return CustomBatch(sources, None);
  }

  /**
   * Once every URL is valid, no fetch is rejected, so a batch that gets past
   * validation never carries an error; its sources are `custom` records of
   * distinct URLs from the list.
   */
  lemma CustomBatchAfterValidation(urls: seq<string>, network: string -> Fetched)
    requires urls != [] && InvalidUrls(urls) == []
    ensures CustomSourcesResult(urls, network).error.None?
    ensures DistinctCustomRecords(CustomSourcesResult(urls, network).sources, urls)
  {
    var unique := Seqs.Dedupe(urls);
    var settled := SettleAll(unique, network);
    assert CustomSourcesResult(urls, network) == GatheredBatch(unique, settled);
    SettleAllFor(unique, network);
    NoneRejected(urls, unique, settled);
    SettledSourcesDistinct(unique, settled);
    DistinctRecordsWithin(SettledSources(settled), unique, urls);
  }

  /** With every URL valid, no outcome of the unique URLs is a rejection. */
  lemma NoneRejected(urls: seq<string>, unique: seq<string>, settled: seq<Settled<Option<SearchResult>>>)
    requires InvalidUrls(urls) == [] && RejectsOnlyInvalid(unique, settled)
    requires forall x :: x in unique <==> x in urls
    ensures forall i :: 0 <= i < |settled| ==> settled[i].Fulfilled?
  {
    forall i | 0 <= i < |settled| ensures settled[i].Fulfilled? {
      assert unique[i] in urls;
      var k :| 0 <= k < |urls| && urls[k] == unique[i];
      assert IsValidUrl(urls[k]);
    }
  }

  /** Records drawn from a list are drawn from any list that holds it. */
  lemma DistinctRecordsWithin(s: seq<SearchResult>, small: seq<string>, big: seq<string>)
    requires DistinctCustomRecords(s, small) && forall x :: x in small ==> x in big
    ensures DistinctCustomRecords(s, big)
  {
  }

  /**
   * `processBatch(items, batchSize, fn)`: the items in slices of `batchSize`,
   * each slice settled, the outcomes appended in item order. A `batchSize` of
   * 0 never advances the loop, so the source needs a positive one.
   */
  method ProcessBatch<T, R>(items: seq<T>, batchSize: nat, fn: T -> Settled<Option<R>>) returns (results: seq<Settled<Option<R>>>)
    requires batchSize > 0
    ensures |results| == |items|
    ensures forall k :: 0 <= k < |items| ==> results[k] == fn(items[k])
  {
    results := [];
    var i := 0;
    while i < |items|
      invariant 0 <= i <= |items|
      invariant |results| == i
      invariant forall k :: 0 <= k < i ==> results[k] == fn(items[k])
      decreases |items| - i
    {
      var end := if i + batchSize < |items| then i + batchSize else |items|;
      var batch := items[i..end];
      var batchResults := seq(|batch|, j requires 0 <= j < |batch| => fn(batch[j]));
      results := results + batchResults;
      i := end;
    }
  }
}
