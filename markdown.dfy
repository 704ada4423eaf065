/**
 * The answer clean-up of the main pipeline: `cleanHtmlFromPerplexity`
 * (`src/lib/api/research.ts`, and the identical copy in
 * `src/lib/api/perplexity.ts`) and `ensureProperMarkdownFormatting`.
 *
 * Each regular-expression rule is a string function with the rule's exact
 * leftmost, greedy meaning. The line-start rules (`/m`) are applied at the
 * start of the text only: they run after every whitespace run, line breaks
 * included, has become one plain space, so the text has no other line start.
 */
module Markdown {
  import opened Wrappers
  import opened Text
  import CustomSources
  import Seqs

  // ---------------------------------------------------------------------
  // Entities

  /** The entity replacements of `cleanHtmlFromPerplexity`, in its order. */
  const PERPLEXITY_ENTITY_STEPS: seq<string -> string> := [
    s => ReplaceAll(s, "&nbsp;", " "),
    s => ReplaceAll(s, "&quot;", "\""),
    s => ReplaceAll(s, "&#39;", "'"),
    s => ReplaceAll(s, "&lt;", "<"),
    s => ReplaceAll(s, "&gt;", ">"),
    s => ReplaceAll(s, "&amp;", "&"),
    s => ReplaceAll(s, "&mdash;", "\U{2014}"),
    s => ReplaceAll(s, "&ndash;", "\U{2013}")
  ]

  /** `s` starts with a named entity `&[a-z]+;`. */
  predicate EntityAt(s: string) {
    |s| > 0 && s[0] == '&'
    && var n := RunOf(s[1..], IsLowerAscii);
    0 < n && n + 1 < |s| && s[n + 1] == ';'
  }

  /** `replace(/&[a-z]+;/g, ' ')`: every named entity left becomes one space. */
  function DropNamedEntities(s: string): (r: string)
    ensures '&' !in s ==> r == s
    decreases |s|
  {
    if s == [] then []
    else if EntityAt(s) then " " + DropNamedEntities(s[RunOf(s[1..], IsLowerAscii) + 2..])
    else [s[0]] + DropNamedEntities(s[1..])
  }

  /** Letters at the front pass through the rule unchanged. */
  lemma {:induction false} DropNamedEntitiesKeepsLetters(t: string, k: nat)
    requires k <= RunOf(t, IsLowerAscii)
    ensures DropNamedEntities(t) == t[..k] + DropNamedEntities(t[k..])
    decreases k
  {
    if k > 0 {
      assert IsLowerAscii(t[0]);
      KeepsPlainHead(t);
      assert RunOf(t, IsLowerAscii) == 1 + RunOf(t[1..], IsLowerAscii);
      DropNamedEntitiesKeepsLetters(t[1..], k - 1);
      ConsSlices(t, k, DropNamedEntities(t[k..]));
    }
  }

  /** A first character that is not `&` passes through the rule. */
  lemma KeepsPlainHead(t: string)
    requires t != [] && t[0] != '&'
    ensures DropNamedEntities(t) == [t[0]] + DropNamedEntities(t[1..])
  {
  }

  lemma ConsSlices(t: string, k: nat, tail: string)
    requires 0 < k <= |t|
    ensures [t[0]] + (t[1..][..k - 1] + tail) == t[..k] + tail
    ensures t[1..][k - 1..] == t[k..]
  {
    assert t[..k] == [t[0]] + t[1..][..k - 1];
  }

  /**
   * No named entity is left after the rule: a replaced entity becomes a
   * space, which is neither a letter nor `;`, so no new one can form.
   */
  lemma {:induction false} DropNamedEntitiesLeavesNone(s: string)
    ensures forall i :: 0 <= i <= |DropNamedEntities(s)| ==> !EntityAt(DropNamedEntities(s)[i..])
    decreases |s|
  {
    var r := DropNamedEntities(s);
    if s != [] {
      var head, t := if EntityAt(s) then " " else [s[0]], if EntityAt(s) then s[RunOf(s[1..], IsLowerAscii) + 2..] else s[1..];
      DropNamedEntitiesLeavesNone(t);
      assert r == head + DropNamedEntities(t);
      NoEntityAfterHead(head, DropNamedEntities(t));
      if !EntityAt(s) && s[0] == '&' {
        KeptAmpStartsNoEntity(s);
      }
      assert r[0..] == r;
    }
  }

  /** One character in front of text without entities adds none after it. */
  lemma NoEntityAfterHead(head: string, rest: string)
    requires |head| == 1 && forall i :: 0 <= i <= |rest| ==> !EntityAt(rest[i..])
    ensures forall i :: 1 <= i <= |head + rest| ==> !EntityAt((head + rest)[i..])
  {
    forall i | 1 <= i <= |head + rest| ensures !EntityAt((head + rest)[i..]) {
      assert (head + rest)[i..] == rest[i - 1..];
    }
  }

  /** An `&` that does not start an entity does not start one after the rule either. */
  lemma KeptAmpStartsNoEntity(s: string)
    requires s != [] && s[0] == '&' && !EntityAt(s)
    ensures !EntityAt([s[0]] + DropNamedEntities(s[1..]))
  {
    var t := s[1..];
    var rest := DropNamedEntities(t);
    var n := RunOf(t, IsLowerAscii);
    DropNamedEntitiesKeepsLetters(t, n);
    var tail := DropNamedEntities(t[n..]);
    assert rest == t[..n] + tail;
    if n < |t| {
      assert t[n..][0] == t[n] && !IsLowerAscii(t[n]);
      assert tail != [] && (tail[0] == ' ' || tail[0] == t[n]);
      assert rest[n] == tail[0];
    } else {
      assert tail == [];
    }
    assert forall i :: 0 <= i < n ==> rest[i] == t[i];
    RunOfExact(rest, IsLowerAscii, n);
    assert ([s[0]] + rest)[1..] == rest;
  }

  // ---------------------------------------------------------------------
  // Whitespace and formatting fixes

  /** `s` starts with `*`, whitespace and `*`. */
  predicate BoldGapAt(s: string) {
    |s| > 0 && s[0] == '*'
    && var n := RunOf(s[1..], IsSpace);
    0 < n && n + 1 < |s| && s[n + 1] == '*'
  }

  /** `replace(/\*\s+\*\/g, '**')`: the whitespace between two stars is removed. */
  function CloseBold(s: string): (r: string)
    ensures |r| <= |s|
    ensures '*' !in s ==> r == s
    ensures OnlyPlainSpaces(s) ==> OnlyPlainSpaces(r)
    decreases |s|
  {
    if s == [] then []
    else if BoldGapAt(s) then "**" + CloseBold(s[RunOf(s[1..], IsSpace) + 2..])
    else [s[0]] + CloseBold(s[1..])
  }

  /** The rule removes whitespace and nothing else. */
  lemma {:induction false} CloseBoldRemovesOnlySpace(s: string)
    ensures Filter(CloseBold(s), NotSpace) == Filter(s, NotSpace)
    decreases |s|
  {
    if s != [] {
      if BoldGapAt(s) {
        var n := RunOf(s[1..], IsSpace);
        CloseBoldRemovesOnlySpace(s[n + 2..]);
        BoldGapFilter(s, n);
        ClosedGapFilter(s, n);
      } else {
        var c := CloseBold(s[1..]);
        CloseBoldRemovesOnlySpace(s[1..]);
        assert CloseBold(s) == [s[0]] + c;
        FilterCons(s[0], c, NotSpace);
        assert s == [s[0]] + s[1..];
        FilterCons(s[0], s[1..], NotSpace);
      }
    }
  }

  /** Filtering the closed gap leaves its two stars. */
  lemma ClosedGapFilter(s: string, n: nat)
    requires BoldGapAt(s) && n == RunOf(s[1..], IsSpace)
    ensures Filter(CloseBold(s), NotSpace) == "**" + Filter(CloseBold(s[n + 2..]), NotSpace)
  {
    ClosedGap(s, n);
    FilterStars(CloseBold(s[n + 2..]));
  }

  lemma ClosedGap(s: string, n: nat)
    requires BoldGapAt(s) && n == RunOf(s[1..], IsSpace)
    ensures CloseBold(s) == "**" + CloseBold(s[n + 2..])
  {
  }

  lemma FilterStars(c: string)
    ensures Filter("**" + c, NotSpace) == "**" + Filter(c, NotSpace)
  {
    assert "**" + c == "*" + ("*" + c);
    FilterCons('*', "*" + c, NotSpace);
    FilterCons('*', c, NotSpace);
  }

  /** Filtering a bold gap leaves its two stars. */
  lemma BoldGapFilter(s: string, n: nat)
    requires BoldGapAt(s) && n == RunOf(s[1..], IsSpace)
    ensures Filter(s, NotSpace) == "**" + Filter(s[n + 2..], NotSpace)
  {
    var w, t := s[1..n + 1], s[n + 2..];
    assert s == "*" + (w + ("*" + t));
    assert w == s[1..][..n];
    FilterNoneKept(w, NotSpace);
    FilterCons('*', w + ("*" + t), NotSpace);
    FilterConcat(w, "*" + t, NotSpace);
    FilterCons('*', t, NotSpace);
  }

  /** A prefix without other whitespace than the plain space keeps that property of a suffix. */
  lemma PlainAfterPrefix(p: string, s: string, g: nat)
    requires g <= |s| && OnlyPlainSpaces(p)
    ensures OnlyPlainSpaces(s) ==> OnlyPlainSpaces(p + s[g..])
  {
    if OnlyPlainSpaces(s) {
      var r := p + s[g..];
      forall i | 0 <= i < |r| && IsSpace(r[i]) ensures r[i] == ' ' {
        if i >= |p| { assert r[i] == s[g + i - |p|]; }
      }
    }
  }

  /**
   * Where the group of `/^\s*M\s*([^M])/` lands when the pattern matches at
   * the start of `s`: after the mark and the whitespace that follows it, or,
   * when no other character follows, on the last of that whitespace.
   */
  function BulletGroup(s: string, mark: char): (g: Option<nat>)
    requires mark == '*' || mark == '-'
    ensures g.Some? ==> 0 < g.value < |s| && s[g.value] != mark
  {
    var a := RunOf(s, IsSpace);
    if a < |s| && s[a] == mark then
      var b := RunOf(s[a + 1..], IsSpace);
      if a + 1 + b < |s| && s[a + 1 + b] != mark then Some(a + 1 + b)
      else if b > 0 then Some(a + b)
      else None
    else None
  }

  /** `replace(/^\s*\*\s*([^*])/gm, '* $1')` and its `-` twin at the start of the text. */
  function FixBullet(s: string, mark: char): (r: string)
    requires mark == '*' || mark == '-'
    ensures BulletGroup(s, mark).None? ==> r == s
    ensures BulletGroup(s, mark).Some? ==> r == [mark, ' '] + s[BulletGroup(s, mark).value..]
    ensures OnlyPlainSpaces(s) ==> OnlyPlainSpaces(r)
  {
    match BulletGroup(s, mark)
    case None => s
    case Some(g) => PlainAfterPrefix([mark, ' '], s, g); [mark, ' '] + s[g..]
  }

  /** Where the group of `/^\s*\d+\.\s*([^.])/` lands when the pattern matches at the start of `s`. */
  function NumberGroup(s: string): (g: Option<nat>)
    ensures g.Some? ==> 0 < g.value < |s| && s[g.value] != '.'
  {
    var a := RunOf(s, IsSpace);
    var d := RunOf(s[a..], IsDigit);
    if d > 0 && a + d < |s| && s[a + d] == '.' then
      var b := RunOf(s[a + d + 1..], IsSpace);
      if a + d + 1 + b < |s| && s[a + d + 1 + b] != '.' then Some(a + d + 1 + b)
      else if b > 0 then Some(a + d + b)
      else None
    else None
  }

  /** `replace(/^\s*\d+\.\s*([^.])/gm, '1. $1')` at the start of the text: a numbered item is renumbered 1. */
  function FixNumbered(s: string): (r: string)
    ensures NumberGroup(s).None? ==> r == s
    ensures NumberGroup(s).Some? ==> r == "1. " + s[NumberGroup(s).value..]
    ensures OnlyPlainSpaces(s) ==> OnlyPlainSpaces(r)
  {
    match NumberGroup(s)
    case None => s
    case Some(g) => PlainAfterPrefix("1. ", s, g); "1. " + s[g..]
  }

  predicate IsHash(c: char) { c == '#' }

  /** `replace(/^#+\s*$/gm, '')` on text without line breaks: a text of hashes and whitespace becomes empty. */
  function DropEmptyHeading(s: string): (r: string)
    ensures r == [] || r == s
  {
    var h := RunOf(s, IsHash);
    if h > 0 && h + RunOf(s[h..], IsSpace) == |s| then "" else s
  }

  /** `replace(/^#+([^#\s])/gm, '# $1')` at the start of the text: any run of hashes before a word becomes `# `. */
  function FixHeading(s: string): (r: string)
    ensures RunOf(s, IsHash) > 0 && RunOf(s, IsHash) < |s| && !IsSpace(s[RunOf(s, IsHash)])
      ==> r == "# " + s[RunOf(s, IsHash)..]
    ensures !(RunOf(s, IsHash) > 0 && RunOf(s, IsHash) < |s| && !IsSpace(s[RunOf(s, IsHash)])) ==> r == s
    ensures OnlyPlainSpaces(s) ==> OnlyPlainSpaces(r)
  {
    var h := RunOf(s, IsHash);
    if h > 0 && h < |s| && !IsSpace(s[h]) then PlainAfterPrefix("# ", s, h); "# " + s[h..] else s
  }

  /** The list and heading fixes, in their order. */
  function FixLineStarts(s: string): (r: string)
    ensures OnlyPlainSpaces(s) ==> OnlyPlainSpaces(r)
  {
    FixHeading(DropEmptyHeading(FixNumbered(FixBullet(FixBullet(s, '*'), '-'))))
  }

  // ---------------------------------------------------------------------
  // Paragraph breaks

  /** `s` starts with `[.!?]`, whitespace and an upper-case letter. */
  predicate SentenceGapAt(s: string) {
    |s| > 0 && CustomSources.IsSentencePunct(s[0])
    && var n := RunOf(s[1..], IsSpace);
    0 < n && n + 1 < |s| && IsUpperAscii(s[n + 1])
  }

  /** `replace(/([.!?])\s+([A-Z])/g, '$1\n\n$2')`: the whitespace between sentences becomes a blank line. */
  function BreakSentences(s: string): (r: string)
    decreases |s|
  {
    if s == [] then []
    else if SentenceGapAt(s) then
      var n := RunOf(s[1..], IsSpace);
      [s[0], '\n', '\n', s[n + 1]] + BreakSentences(s[n + 2..])
    else [s[0]] + BreakSentences(s[1..])
  }

  /** The line break at `i` is one of a pair that sits between sentence punctuation and an upper-case letter. */
  predicate FramedBreak(s: string, i: int) {
    (1 <= i && i + 2 < |s| && CustomSources.IsSentencePunct(s[i - 1]) && s[i + 1] == '\n' && IsUpperAscii(s[i + 2]))
    || (2 <= i && i + 1 < |s| && CustomSources.IsSentencePunct(s[i - 2]) && s[i - 1] == '\n' && IsUpperAscii(s[i + 1]))
  }

  /** Every line break of `s` is framed, and the only other whitespace is the plain space. */
  predicate BreaksFramed(s: string) {
    forall i :: 0 <= i < |s| ==> IsSpace(s[i]) ==> s[i] == ' ' || (s[i] == '\n' && FramedBreak(s, i))
  }

  lemma FramedBreakShift(p: string, q: string, j: int)
    requires 0 <= j < |q| && FramedBreak(q, j)
    ensures FramedBreak(p + q, |p| + j)
  {
    var s := p + q;
    if 1 <= j && j + 2 < |q| && CustomSources.IsSentencePunct(q[j - 1]) && q[j + 1] == '\n' && IsUpperAscii(q[j + 2]) {
      assert s[|p| + j - 1] == q[j - 1] && s[|p| + j + 1] == q[j + 1] && s[|p| + j + 2] == q[j + 2];
    } else {
      assert s[|p| + j - 2] == q[j - 2] && s[|p| + j - 1] == q[j - 1] && s[|p| + j + 1] == q[j + 1];
    }
  }

  /** Text whose only whitespace is the plain space comes out with every line break framed. */
  lemma {:induction false} BreakSentencesFramed(s: string)
    requires OnlyPlainSpaces(s)
    ensures BreaksFramed(BreakSentences(s))
    decreases |s|
  {
    if s != [] {
      var r := BreakSentences(s);
      if SentenceGapAt(s) {
        var n := RunOf(s[1..], IsSpace);
        var t := s[n + 2..];
        assert OnlyPlainSpaces(t) by {
          forall i | 0 <= i < |t| ensures IsSpace(t[i]) ==> t[i] == ' ' { assert t[i] == s[n + 2 + i]; }
        }
        BreakSentencesFramed(t);
        assert r == [s[0], '\n', '\n', s[n + 1]] + BreakSentences(t);
        GapHeadFramed(s[0], s[n + 1], BreakSentences(t));
      } else {
        var t := s[1..];
        assert OnlyPlainSpaces(t) by {
          forall i | 0 <= i < |t| ensures IsSpace(t[i]) ==> t[i] == ' ' { assert t[i] == s[1 + i]; }
        }
        BreakSentencesFramed(t);
        assert r == [s[0]] + BreakSentences(t);
        PlainHeadFramed(s[0], BreakSentences(t));
      }
    }
  }

  /** A sentence mark, a blank line and a capital in front of framed text: the two new breaks are framed. */
  lemma GapHeadFramed(p: char, u: char, rest: string)
    requires CustomSources.IsSentencePunct(p) && IsUpperAscii(u) && BreaksFramed(rest)
    ensures BreaksFramed([p, '\n', '\n', u] + rest)
  {
    var head := [p, '\n', '\n', u];
    var r := head + rest;
    forall i | 0 <= i < |r| && IsSpace(r[i]) ensures r[i] == ' ' || (r[i] == '\n' && FramedBreak(r, i)) {
      if i >= 4 {
        assert r[i] == rest[i - 4];
        if r[i] == '\n' { FramedBreakShift(head, rest, i - 4); }
      } else if i == 1 {
        assert FramedBreak(r, 1);
      } else if i == 2 {
        assert FramedBreak(r, 2);
      }
    }
  }

  /** A character that is not a line break in front of framed text keeps it framed. */
  lemma PlainHeadFramed(c: char, rest: string)
    requires (IsSpace(c) ==> c == ' ') && BreaksFramed(rest)
    ensures BreaksFramed([c] + rest)
  {
    var r := [c] + rest;
    forall i | 0 <= i < |r| && IsSpace(r[i]) ensures r[i] == ' ' || (r[i] == '\n' && FramedBreak(r, i)) {
      if i >= 1 {
        assert r[i] == rest[i - 1];
        if r[i] == '\n' { FramedBreakShift([c], rest, i - 1); }
      }
    }
  }

  /** Trimming keeps every line break framed: a framed break never sits at either end. */
  lemma TrimKeepsBreaksFramed(s: string)
    requires BreaksFramed(s)
    ensures BreaksFramed(Trim(s))
  {
    var a, b := TrimIsInfix(s);
    if a < b {
      assert s[a] == Trim(s)[0] && s[b - 1] == Trim(s)[b - a - 1];
      InfixKeepsBreaksFramed(s, a, b);
    }
  }

  /** A piece whose ends are not whitespace keeps every line break framed. */
  lemma InfixKeepsBreaksFramed(s: string, a: int, b: int)
    requires 0 <= a < b <= |s| && BreaksFramed(s)
    requires !IsSpace(s[a]) && !IsSpace(s[b - 1])
    ensures BreaksFramed(s[a..b])
  {
    var r := s[a..b];
    forall i | 0 <= i < |r| && IsSpace(r[i]) ensures r[i] == ' ' || (r[i] == '\n' && FramedBreak(r, i)) {
      assert r[i] == s[a + i];
      if r[i] != ' ' {
        FramedBreakInfix(s, a, b, i);
      }
    }
  }

  /** A framed break strictly inside a piece whose ends are not whitespace is framed in the piece. */
  lemma FramedBreakInfix(s: string, a: int, b: int, i: int)
    requires 0 <= a <= b <= |s| && 0 <= i < b - a
    requires s[a + i] == '\n' && FramedBreak(s, a + i)
    requires !IsSpace(s[a]) && !IsSpace(s[b - 1])
    ensures FramedBreak(s[a..b], i)
  {
    var r := s[a..b];
    if 1 <= a + i && a + i + 2 < |s| && CustomSources.IsSentencePunct(s[a + i - 1]) && s[a + i + 1] == '\n' && IsUpperAscii(s[a + i + 2]) {
      assert a + i != b - 1 && a + i != a;
      assert a + i + 1 != b - 1;
      assert r[i - 1] == s[a + i - 1] && r[i + 1] == s[a + i + 1] && r[i + 2] == s[a + i + 2];
    } else {
      assert a + i != b - 1 && a + i != a;
      assert a + i - 1 != a;
      assert r[i - 2] == s[a + i - 2] && r[i - 1] == s[a + i - 1] && r[i + 1] == s[a + i + 1];
    }
  }

  // ---------------------------------------------------------------------
  // cleanHtmlFromPerplexity

  /**
   * The decoding rules of `cleanHtmlFromPerplexity` that follow the
   * tag-specific rewrites: any tag becomes a space, eight entities are
   * decoded, and any other named entity becomes a space.
   */
  const PERPLEXITY_DECODE_STEPS: seq<string -> string> :=
    [s => CustomSources.StripTags(s, 1)] + PERPLEXITY_ENTITY_STEPS + [DropNamedEntities]

  /** The decoding rules applied in order. */
  function PerplexityDecode(text: string): string {
    Chain(text, PERPLEXITY_DECODE_STEPS)
  }

  /**
   * `cleanHtmlFromPerplexity`: the decoding rules, then the whitespace
   * collapse, bold markers closed, the line start fixed, sentences broken
   * into paragraphs, and a trim. The rules that look for a line break after
   * the collapse (space around `\n`, three or more `\n`, `\n|\n`) and the
   * `| |` fix find nothing to change and are not listed. The early return
   * for empty text is the same as running the rules on it
   * (`CleanHtmlFromPerplexityEmpty`).
   */
  function CleanHtmlFromPerplexity(text: string): (r: string)
    ensures r != [] ==> !IsSpace(r[0]) && !IsSpace(r[|r| - 1])
  {
    Trim(BreakSentences(FixLineStarts(CloseBold(CollapseSpaces(PerplexityDecode(text))))))
  }

  /** Empty text comes back empty. */
  lemma CleanHtmlFromPerplexityEmpty()
    ensures CleanHtmlFromPerplexity([]) == []
  {
    var e: string := [];
    forall i | 0 <= i < |PERPLEXITY_DECODE_STEPS| ensures PERPLEXITY_DECODE_STEPS[i](e) == e {
      if i == 0 {
        assert CustomSources.StripTags(e, 1) == e;
      } else if i < 9 {
        assert PERPLEXITY_DECODE_STEPS[i] == PERPLEXITY_ENTITY_STEPS[i - 1];
      }
    }
    ChainFixed(e, PERPLEXITY_DECODE_STEPS);
    assert PerplexityDecode(e) == e;
    assert CollapseSpaces(e) == e && CloseBold(e) == e && FixLineStarts(e) == e && BreakSentences(e) == e;
  }

  /**
   * After cleaning, every line break is one of a `\n\n` pair inserted
   * between `[.!?]` and an upper-case letter, and every other whitespace
   * character is a plain space.
   */
  lemma CleanHtmlFromPerplexityBreaks(text: string)
    ensures BreaksFramed(CleanHtmlFromPerplexity(text))
  {
    var c1 := CollapseSpaces(PerplexityDecode(text));
    CollapseSpacesSpacing(PerplexityDecode(text));
    var c3 := FixLineStarts(CloseBold(c1));
    BreakSentencesFramed(c3);
    TrimKeepsBreaksFramed(BreakSentences(c3));
  }

  /** Text without `<` has no tag to strip. */
  lemma {:induction false} StripTagsWithoutTags(s: string, minInner: nat)
    requires minInner <= 1 && '<' !in s
    ensures CustomSources.StripTags(s, minInner) == s
    decreases |s|
  {
    if s != [] {
      assert s[0] != '<' && '<' !in s[1..];
      StripTagsWithoutTags(s[1..], minInner);
    }
  }

  /** A pattern whose first character does not occur cannot be replaced. */
  lemma ReplaceAllWithoutFirst(s: string, p: string, rep: string)
    requires p != [] && p[0] !in s
    ensures ReplaceAll(s, p, rep) == s
  {
  }

  /**
   * A single word of plain text (no whitespace, no tag, entity or bold
   * marker, and not starting like a list item or heading) is left as it is.
   */
  lemma CleanHtmlFromPerplexityOfWord(s: string)
    requires s != [] && forall i :: 0 <= i < |s| ==> !IsSpace(s[i])
    requires '<' !in s && '&' !in s && '*' !in s
    requires s[0] != '#' && s[0] != '-' && !IsDigit(s[0])
    ensures CleanHtmlFromPerplexity(s) == s
  {
    PerplexityDecodeOfPlain(s);
    CollapseSpacesOfSpaceless(s);
    FixLineStartsOfWord(s);
    BreakSentencesOfSpaceless(s);
    assert TrimStart(s) == s && TrimEnd(s) == s;
  }

  /** Text without `<` and `&` has nothing to decode. */
  lemma PerplexityDecodeOfPlain(s: string)
    requires '<' !in s && '&' !in s
    ensures PerplexityDecode(s) == s
  {
    forall i | 0 <= i < |PERPLEXITY_DECODE_STEPS| ensures PERPLEXITY_DECODE_STEPS[i](s) == s {
      if i == 0 {
        StripTagsWithoutTags(s, 1);
      } else if i < 9 {
        EntityStepsFixWithoutAmp(s);
        assert PERPLEXITY_DECODE_STEPS[i] == PERPLEXITY_ENTITY_STEPS[i - 1];
      }
    }
    ChainFixed(s, PERPLEXITY_DECODE_STEPS);
  }

  /** Every entity replacement leaves text without `&` as it is. */
  lemma EntityStepsFixWithoutAmp(s: string)
    requires '&' !in s
    ensures forall i :: 0 <= i < |PERPLEXITY_ENTITY_STEPS| ==> PERPLEXITY_ENTITY_STEPS[i](s) == s
  {
    forall i | 0 <= i < |PERPLEXITY_ENTITY_STEPS| ensures PERPLEXITY_ENTITY_STEPS[i](s) == s {
      if i == 0 { ReplaceAllWithoutFirst(s, "&nbsp;", " "); }
      else if i == 1 { ReplaceAllWithoutFirst(s, "&quot;", "\""); }
      else if i == 2 { ReplaceAllWithoutFirst(s, "&#39;", "'"); }
      else if i == 3 { ReplaceAllWithoutFirst(s, "&lt;", "<"); }
      else if i == 4 { ReplaceAllWithoutFirst(s, "&gt;", ">"); }
      else if i == 5 { ReplaceAllWithoutFirst(s, "&amp;", "&"); }
      else if i == 6 { ReplaceAllWithoutFirst(s, "&mdash;", "\U{2014}"); }
      else { ReplaceAllWithoutFirst(s, "&ndash;", "\U{2013}"); }
    }
  }

  /** A word that does not start like a list item or heading keeps its start. */
  lemma FixLineStartsOfWord(s: string)
    requires s != [] && !IsSpace(s[0]) && '*' !in s
    requires s[0] != '#' && s[0] != '-' && !IsDigit(s[0])
    ensures FixLineStarts(s) == s
  {
    assert RunOf(s, IsSpace) == 0 && RunOf(s, IsHash) == 0 && RunOf(s, IsDigit) == 0;
    assert s[0..] == s;
  }

  /** Without whitespace there is no sentence gap to break. */
  lemma {:induction false} BreakSentencesOfSpaceless(s: string)
    requires forall i :: 0 <= i < |s| ==> !IsSpace(s[i])
    ensures BreakSentences(s) == s
    decreases |s|
  {
    if s != [] {
      if |s| > 1 { assert s[1..][0] == s[1]; }
      assert !SentenceGapAt(s);
      BreakSentencesOfSpaceless(s[1..]);
    }
  }

  // ---------------------------------------------------------------------
  // ensureProperMarkdownFormatting

  predicate NotCloseBracket(c: char) { c != ']' }
  predicate NotCloseParen(c: char) { c != ')' }

  /** A link `[text] (target)`: the `]` at `close`, the `(` at `open`, the `)` at `end`. */
  datatype LinkSpan = LinkSpan(close: nat, open: nat, end: nat)

  /** The match of `/\[([^\]]+)\]\s*\(([^)]+)\)/` at the start of `s`, if any. */
  function LinkAt(s: string): (m: Option<LinkSpan>)
    ensures m.Some? ==> 0 < m.value.close < m.value.open < m.value.end < |s|
    ensures m.Some? ==> s[0] == '[' && s[m.value.close] == ']' && s[m.value.open] == '(' && s[m.value.end] == ')'
    ensures m.Some? ==> IsBlank(s[m.value.close + 1..m.value.open])
  {
    if s == [] || s[0] != '[' then None
    else
      var a := RunOf(s[1..], NotCloseBracket);
      if a == 0 || a + 1 >= |s| then None
      else
        var o := a + 2 + RunOf(s[a + 2..], IsSpace);
        if o >= |s| || s[o] != '(' then None
        else
          var b := RunOf(s[o + 1..], NotCloseParen);
          if b == 0 || o + 1 + b >= |s| then None
          else Some(LinkSpan(a + 1, o, o + 1 + b))
  }

  /** `replace(/\[([^\]]+)\]\s*\(([^)]+)\)/g, '[$1]($2)')`: the whitespace between a link's text and target is removed. */
  function LinkFix(s: string): (r: string)
    ensures '[' !in s ==> r == s
    decreases |s|
  {
    if s == [] then []
    else
      var p := LinkPiece(s);
      if '[' !in s then assert s == p.0 + s[p.1..]; p.0 + LinkFix(s[p.1..])
      else p.0 + LinkFix(s[p.1..])
  }

  /**
   * What the link fix makes of the start of `s`, and how much of `s` that
   * consumes: a whole link with its blank gap dropped, or one character
   * where no link starts.
   */
  function LinkPiece(s: string): (r: (string, nat))
    requires s != []
    ensures 0 < r.1 <= |s|
    ensures s[0] != '[' ==> r == ([s[0]], 1)
  {
    match LinkAt(s)
    case Some(m) => (s[..m.close + 1] + s[m.open..m.end + 1], m.end + 1)
    case None => ([s[0]], 1)
  }

  /** Only whitespace is removed by the link fix. */
  lemma {:induction false} LinkFixRemovesOnlySpace(s: string)
    ensures Filter(LinkFix(s), NotSpace) == Filter(s, NotSpace)
    decreases |s|
  {
    if s != [] {
      var p := LinkPiece(s);
      LinkFixRemovesOnlySpace(s[p.1..]);
      LinkPieceKeepsText(s);
      KeepsTextPiecewise(s, p.1, p.0, LinkFix(s[p.1..]));
    }
  }

  /** A piece of the link fix keeps the visible text of what it consumes. */
  lemma LinkPieceKeepsText(s: string)
    requires s != []
    ensures Filter(LinkPiece(s).0, NotSpace) == Filter(s[..LinkPiece(s).1], NotSpace)
  {
    if LinkAt(s).Some? {
      var m := LinkAt(s).value;
      assert LinkPiece(s) == (s[..m.close + 1] + s[m.open..m.end + 1], m.end + 1);
      BlankGapFilter(s, m.close + 1, m.open, m.end + 1);
    } else {
      assert s[..1] == [s[0]];
    }
  }

  /** Rewriting a first piece and the rest, each keeping its visible text, keeps the whole's. */
  lemma KeepsTextPiecewise(s: string, k: nat, head: string, rest: string)
    requires k <= |s| && Filter(head, NotSpace) == Filter(s[..k], NotSpace)
    requires Filter(rest, NotSpace) == Filter(s[k..], NotSpace)
    ensures Filter(head + rest, NotSpace) == Filter(s, NotSpace)
  {
    assert s == s[..k] + s[k..];
    FilterConcat(head, rest, NotSpace);
    FilterConcat(s[..k], s[k..], NotSpace);
  }

  /** Cutting a blank gap out of a prefix does not change what filtering keeps. */
  lemma BlankGapFilter(s: string, i: nat, j: nat, k: nat)
    requires i <= j <= k <= |s| && IsBlank(s[i..j])
    ensures Filter(s[..i] + s[j..k], NotSpace) == Filter(s[..k], NotSpace)
  {
    var a, g, b := s[..i], s[i..j], s[j..k];
    assert s[..k] == a + g + b;
    FilterNoneKept(g, NotSpace);
    FilterConcat(a, g, NotSpace);
    FilterConcat(a + g, b, NotSpace);
    FilterConcat(a, b, NotSpace);
  }

  /** A character that `[^\s,]` accepts. */
  predicate IsUrlChar(c: char) { !IsSpace(c) && c != ',' }

  /** The length of the match of `/https?:\/\/[^\s,]+/` at the start of `s`, or 0. */
  function BareUrlLength(s: string): (n: nat)
    ensures n <= |s|
    ensures n > 0 ==> (StartsWith(s, "http://") || StartsWith(s, "https://")) && n > 7
    ensures n > 0 ==> forall i :: 0 <= i < n ==> IsUrlChar(s[i])
  {
    var k := if StartsWith(s, "https://") then 8 else if StartsWith(s, "http://") then 7 else 0;
    if k == 0 then 0
    else
      var u := RunOf(s[k..], IsUrlChar);
      if u == 0 then 0
      else
        assert forall i :: 0 <= i < k ==> s[i] == s[..k][i];
        k + u
  }

  /**
   * `replace(/(?<![(\[])(https?:\/\/[^\s,]+)(?![)\]])/g, '<$1>')`: a bare
   * address not right after `(` or `[` is put between angle brackets. The
   * address runs to the next whitespace or comma, so the look-ahead always
   * holds. `prev` is the character before `s` in the whole text.
   */
  function WrapUrls(s: string, prev: Option<char>): (r: string)
    ensures |s| <= |r|
    decreases |s|
  {
    if s == [] then []
    else
      var n := BareUrlLength(s);
      if n > 0 && prev != Some('(') && prev != Some('[') then
        "<" + s[..n] + ">" + WrapUrls(s[n..], Some(s[n - 1]))
      else [s[0]] + WrapUrls(s[1..], Some(s[0]))
  }

  predicate NotAngle(c: char) { c != '<' && c != '>' }

  /** Wrapping adds angle brackets and nothing else. */
  lemma {:induction false} WrapUrlsAddsOnlyBrackets(s: string, prev: Option<char>)
    ensures Filter(WrapUrls(s, prev), NotAngle) == Filter(s, NotAngle)
    decreases |s|
  {
    if s != [] {
      var n := BareUrlLength(s);
      if n > 0 && prev != Some('(') && prev != Some('[') {
        WrapUrlsAddsOnlyBrackets(s[n..], Some(s[n - 1]));
        WrappedStep(s, prev, n);
      } else {
        WrapUrlsAddsOnlyBrackets(s[1..], Some(s[0]));
        UnwrappedStep(s, prev);
      }
    }
  }

  /** A wrapped address adds only its brackets, given that the rest adds only brackets. */
  lemma WrappedStep(s: string, prev: Option<char>, n: nat)
    requires s != [] && n == BareUrlLength(s) > 0 && prev != Some('(') && prev != Some('[')
    requires Filter(WrapUrls(s[n..], Some(s[n - 1])), NotAngle) == Filter(s[n..], NotAngle)
    ensures Filter(WrapUrls(s, prev), NotAngle) == Filter(s, NotAngle)
  {
    assert s == s[..n] + s[n..];
    WrappedFilter(s[..n], s[n..], WrapUrls(s[n..], Some(s[n - 1])));
  }

  /** A character copied as it is adds nothing, given that the rest adds only brackets. */
  lemma UnwrappedStep(s: string, prev: Option<char>)
    requires s != [] && !(BareUrlLength(s) > 0 && prev != Some('(') && prev != Some('['))
    requires Filter(WrapUrls(s[1..], Some(s[0])), NotAngle) == Filter(s[1..], NotAngle)
    ensures Filter(WrapUrls(s, prev), NotAngle) == Filter(s, NotAngle)
  {
    assert s == [s[0]] + s[1..];
    FilterConsSame(s[0], WrapUrls(s[1..], Some(s[0])), s[1..], NotAngle);
  }

  /** Brackets around a piece disappear when filtered. */
  lemma WrappedFilter(u: string, t: string, w: string)
    requires Filter(w, NotAngle) == Filter(t, NotAngle)
    ensures Filter("<" + u + ">" + w, NotAngle) == Filter(u + t, NotAngle)
  {
    assert "<" + u + ">" + w == "<" + (u + (">" + w));
    FilterCons('<', u + (">" + w), NotAngle);
    FilterConcat(u, ">" + w, NotAngle);
    FilterCons('>', w, NotAngle);
    FilterConcat(u, t, NotAngle);
  }

  /**
   * An address `u` at the front of `u + q`, right after `(` (or `[`), is
   * copied as it is, provided no other address starts inside it; the
   * text after it is then handled as usual.
   */
  lemma WrapUrlsAfterParen(u: string, q: string, prev: Option<char>)
    requires BareUrlLength(u + q) == |u| > 0 && (prev == Some('(') || prev == Some('['))
    requires forall j :: 0 < j < |u| ==> !StartsWith((u + q)[j..], "http")
    ensures WrapUrls(u + q, prev) == u + WrapUrls(q, Some(u[|u| - 1]))
  {
    WrapUrlsCopy(u, q, prev);
  }

  /** An address `u` at the front of `u + q` after any other character (or at the start) is put between angle brackets. */
  lemma WrapUrlsAfterSpace(u: string, q: string, prev: Option<char>)
    requires BareUrlLength(u + q) == |u| > 0 && prev != Some('(') && prev != Some('[')
    ensures WrapUrls(u + q, prev) == "<" + u + ">" + WrapUrls(q, Some(u[|u| - 1]))
  {
    var s := u + q;
    assert s[..|u|] == u && s[|u|..] == q && s[|u| - 1] == u[|u| - 1];
  }

  /** A piece in which no address is wrapped is copied, and the text after it is handled from its last character on. */
  lemma {:induction false} WrapUrlsCopy(s: string, t: string, prev: Option<char>)
    requires s != []
    requires BareUrlLength(s + t) == 0 || prev == Some('(') || prev == Some('[')
    requires forall j :: 0 < j < |s| ==> !StartsWith((s + t)[j..], "http")
    ensures WrapUrls(s + t, prev) == s + WrapUrls(t, Some(s[|s| - 1]))
    decreases |s|
  {
    if |s| > 1 {
      NoAddressInsideTail(s, t);
      WrapUrlsCopy(s[1..], t, Some(s[0]));
      assert s[1..][|s| - 2] == s[|s| - 1];
    }
    CopyStep(s, t, prev);
  }

  /** One copied character in front of the rest of the piece. */
  lemma CopyStep(s: string, t: string, prev: Option<char>)
    requires s != [] && (BareUrlLength(s + t) == 0 || prev == Some('(') || prev == Some('['))
    requires |s| > 1 ==> WrapUrls(s[1..] + t, Some(s[0])) == s[1..] + WrapUrls(t, Some(s[|s| - 1]))
    ensures WrapUrls(s + t, prev) == s + WrapUrls(t, Some(s[|s| - 1]))
  {
    CopyFirst(s + t, prev);
    assert (s + t)[0] == s[0] && (s + t)[1..] == s[1..] + t;
    Seqs.HeadTail(s);
    Seqs.Assoc([s[0]], s[1..], WrapUrls(t, Some(s[|s| - 1])));
  }

  /** A character at which no address is wrapped is copied. */
  lemma CopyFirst(st: string, prev: Option<char>)
    requires st != [] && (BareUrlLength(st) == 0 || prev == Some('(') || prev == Some('['))
    ensures WrapUrls(st, prev) == [st[0]] + WrapUrls(st[1..], Some(st[0]))
  {
  }

  lemma NoAddressInsideTail(s: string, t: string)
    requires |s| > 1
    requires forall j :: 0 < j < |s| ==> !StartsWith((s + t)[j..], "http")
    ensures BareUrlLength(s[1..] + t) == 0
    ensures forall j :: 0 < j < |s| - 1 ==> !StartsWith((s[1..] + t)[j..], "http")
  {
    assert (s[1..] + t)[0..] == (s + t)[1..];
    NoHttpNoAddress(s[1..] + t);
    forall j | 0 < j < |s| - 1 ensures !StartsWith((s[1..] + t)[j..], "http") {
      assert (s[1..] + t)[j..] == (s + t)[j + 1..];
    }
  }

  lemma NoHttpNoAddress(x: string)
    requires !StartsWith(x, "http")
    ensures BareUrlLength(x) == 0
  {
  }

  /** Text without an `h` holds no address to wrap. */
  lemma {:induction false} WrapUrlsWithoutH(s: string, prev: Option<char>)
    requires 'h' !in s
    ensures WrapUrls(s, prev) == s
    decreases |s|
  {
    if s != [] {
      assert !StartsWith(s, "http://") && !StartsWith(s, "https://") by {
        assert |s| >= 7 ==> s[..7][0] == s[0];
      }
      WrapUrlsWithoutH(s[1..], Some(s[0]));
    }
  }

  /** The characters `[\u2028\u2029\u0000-\u0008\u000B-\u000C\u000E-\u001F]` that are removed for display. */
  predicate IsDisplayControl(c: char) {
    c == '\U{2028}' || c == '\U{2029}' || c <= '\U{0008}' || ('\U{000B}' <= c <= '\U{000C}') || ('\U{000E}' <= c <= '\U{001F}')
  }

  predicate NotDisplayControl(c: char) { !IsDisplayControl(c) }

  /** No character of `s` is a display control. */
  predicate NoDisplayControls(s: string) {
    forall i :: 0 <= i < |s| ==> !IsDisplayControl(s[i])
  }

  /** The removal of display controls: they all go, every other character stays in order. */
  function RemoveControls(s: string): (r: string)
    ensures NoDisplayControls(r)
    ensures NoDisplayControls(s) ==> r == s
  {
    var r := Filter(s, NotDisplayControl);
    assert NoDisplayControls(s) ==> r == s by {
      if NoDisplayControls(s) { FilterAllKept(s, NotDisplayControl); }
    }
    r
  }

  predicate IsNewline(c: char) { c == '\n' }

  /** No three line breaks in a row. */
  predicate NoTripleNewline(s: string) {
    forall i :: 0 <= i < |s| - 2 ==> !(s[i] == '\n' && s[i + 1] == '\n' && s[i + 2] == '\n')
  }

  /** `replace(/\n{3,}/g, '\n\n')`: three or more line breaks in a row become two. */
  function CapBlankLines(s: string): (r: string)
    ensures |r| <= |s|
    ensures r == [] <==> s == []
    ensures r != [] ==> r[0] == s[0]
    decreases |s|
  {
    if s == [] then []
    else
      var n := RunOf(s, IsNewline);
      if n >= 3 then "\n\n" + CapBlankLines(s[n..])
      else if n > 0 then s[..n] + CapBlankLines(s[n..])
      else [s[0]] + CapBlankLines(s[1..])
  }

  /** Where capping resumes after the first character or run of line breaks. */
  function CapResume(s: string): (m: nat)
    requires s != []
    ensures 0 < m <= |s|
  {
    var n := RunOf(s, IsNewline);
    if n > 0 then n else 1
  }

  /** What capping makes of the first character or run of line breaks. */
  function CapHead(s: string): string
    requires s != []
  {
    var n := RunOf(s, IsNewline);
    if n >= 3 then "\n\n" else s[..CapResume(s)]
  }

  /** Capping handles the first character or run of line breaks, then the rest. */
  lemma CapBlankLinesStep(s: string)
    requires s != []
    ensures CapBlankLines(s) == CapHead(s) + CapBlankLines(s[CapResume(s)..])
  {
  }

  /** No run of three line breaks is left. */
  lemma {:induction false} CapBlankLinesCaps(s: string)
    ensures NoTripleNewline(CapBlankLines(s))
    decreases |s|
  {
    if s != [] {
      var n := RunOf(s, IsNewline);
      var r := CapBlankLines(s);
      if n > 0 {
        var t := s[n..];
        CapBlankLinesCaps(t);
        var c := CapBlankLines(t);
        var head := if n >= 3 then "\n\n" else s[..n];
        assert r == head + c;
        assert |head| <= 2 && forall i :: 0 <= i < |head| ==> head[i] == '\n';
        assert c != [] ==> c[0] == t[0] && t[0] != '\n';
        forall i | 0 <= i < |r| - 2 ensures !(r[i] == '\n' && r[i + 1] == '\n' && r[i + 2] == '\n') {
          if i >= |head| {
            assert r[i] == c[i - |head|] && r[i + 1] == c[i + 1 - |head|] && r[i + 2] == c[i + 2 - |head|];
          } else {
            assert r[|head|] == c[0];
          }
        }
      } else {
        CapBlankLinesCaps(s[1..]);
        var c := CapBlankLines(s[1..]);
        assert r == [s[0]] + c;
        forall i | 0 <= i < |r| - 2 ensures !(r[i] == '\n' && r[i + 1] == '\n' && r[i + 2] == '\n') {
          if i >= 1 {
            assert r[i] == c[i - 1] && r[i + 1] == c[i] && r[i + 2] == c[i + 1];
          }
        }
      }
    }
  }

  /** Only line breaks are removed. */
  lemma {:induction false} CapBlankLinesRemovesOnlyNewlines(s: string)
    ensures Filter(CapBlankLines(s), NotNewline) == Filter(s, NotNewline)
    decreases |s|
  {
    if s != [] {
      var n := RunOf(s, IsNewline);
      if n > 0 {
        CapBlankLinesRemovesOnlyNewlines(s[n..]);
        SkipNewlineRun(s, n);
        CapSkipsNewlineRun(s, n);
      } else {
        CapBlankLinesRemovesOnlyNewlines(s[1..]);
        assert s == [s[0]] + s[1..];
        FilterConsSame(s[0], CapBlankLines(s[1..]), s[1..], NotNewline);
      }
    }
  }

  /** A leading run of line breaks adds nothing to the filtered text. */
  lemma SkipNewlineRun(s: string, n: nat)
    requires 0 < n == RunOf(s, IsNewline)
    ensures Filter(s, NotNewline) == Filter(s[n..], NotNewline)
  {
    assert s == s[..n] + s[n..];
    FilterSkipsRejected(s[..n], s[n..], NotNewline);
  }

  /** What capping does to a leading run adds nothing to the filtered text. */
  lemma CapSkipsNewlineRun(s: string, n: nat)
    requires 0 < n == RunOf(s, IsNewline)
    ensures Filter(CapBlankLines(s), NotNewline) == Filter(CapBlankLines(s[n..]), NotNewline)
  {
    var head := if n >= 3 then "\n\n" else s[..n];
    assert CapBlankLines(s) == head + CapBlankLines(s[n..]);
    FilterSkipsRejected(head, CapBlankLines(s[n..]), NotNewline);
  }

  predicate NotNewline(c: char) { c != '\n' }

  // ---------------------------------------------------------------------
  // Source sections

  /** The case-insensitive `SOURCES\s*USED` starts at `i` (the optional `:` does not change where). */
  predicate SourcesUsedAt(s: string, i: int) {
    OccursAtIgnoreCase(s, "sources", i)
    && OccursAtIgnoreCase(s, "used", i + 7 + RunOf(s[i + 7..], IsSpace))
  }

  /** The first `i >= from` where `SourcesUsedAt(s, i)`. */
  function FindSourcesUsed(s: string, from: nat): (r: Option<nat>)
    requires from <= |s|
    ensures r.Some? ==> from <= r.value <= |s| && SourcesUsedAt(s, r.value)
    ensures r.Some? ==> forall j :: from <= j < r.value ==> !SourcesUsedAt(s, j)
    ensures r.None? ==> forall j :: from <= j ==> !SourcesUsedAt(s, j)
    decreases |s| - from
  {
    if SourcesUsedAt(s, from) then Some(from)
    else if from + 7 >= |s| then None
    else FindSourcesUsed(s, from + 1)
  }

  /** The exact phrase `SOURCES USED` is one of the spellings the pattern accepts. */
  lemma ExactPhraseMatches(s: string, k: nat)
    requires OccursAt(s, "SOURCES USED", k)
    ensures SourcesUsedAt(s, k)
  {
    assert s[k..k + 12] == "SOURCES USED";
    assert s[k..k + 7] == s[k..k + 12][..7];
    assert Lower(s[k..k + 7]) == "sources";
    assert s[k + 7..][0] == ' ' && s[k + 7..][1] == 'U';
    RunOfExact(s[k + 7..], IsSpace, 1);
    assert s[k + 8..k + 12] == s[k..k + 12][8..];
    assert Lower(s[k + 8..k + 12]) == "used";
  }

  /**
   * `replace(/(SOURCES\s*USED:?)/i, '\n\n## $1')`: a heading marker goes
   * before the first case-insensitive match, and nothing else changes.
   */
  function MarkSourcesHeading(s: string): (r: string)
    ensures NoDisplayControls(s) ==> NoDisplayControls(r)
    ensures FindSourcesUsed(s, 0).None? ==> r == s
    ensures FindSourcesUsed(s, 0).Some? ==>
      exists i :: SourcesUsedAt(s, i) && (forall j :: 0 <= j < i ==> !SourcesUsedAt(s, j))
        && r == s[..i] + "\n\n## " + s[i..]
  {
    match FindSourcesUsed(s, 0)
    case None => s
    case Some(i) =>
      InsertKeepsNoControls(s, i, "\n\n## ");
      s[..i] + "\n\n## " + s[i..]
  }

  /** `replace(/(name)/i, '### $1')`: a subheading marker goes before the first case-insensitive `name`. */
  function MarkSubheading(s: string, name: string): (r: string)
    ensures NoDisplayControls(s) ==> NoDisplayControls(r)
    ensures |r| >= |s|
    ensures FindFromIgnoreCase(s, name, 0).None? ==> r == s
    ensures FindFromIgnoreCase(s, name, 0).Some? ==>
      exists i :: OccursAtIgnoreCase(s, name, i) && (forall j :: 0 <= j < i ==> !OccursAtIgnoreCase(s, name, j))
        && r == s[..i] + "### " + s[i..]
  {
    match FindFromIgnoreCase(s, name, 0)
    case None => s
    case Some(i) =>
      InsertKeepsNoControls(s, i, "### ");
      s[..i] + "### " + s[i..]
  }

  /**
   * The source-section step of `ensureProperMarkdownFormatting`: only when
   * the exact phrase `SOURCES USED` is present, the first spelling of it
   * becomes a `##` heading and the three subsection labels `###` headings.
   */
  function FormatSourceSections(s: string): (r: string)
    ensures NoDisplayControls(s) ==> NoDisplayControls(r)
    ensures !Contains(s, "SOURCES USED") ==> r == s
  {
    if Contains(s, "SOURCES USED") then
      var h := MarkSourcesHeading(s);
      MarkSubheading(MarkSubheading(MarkSubheading(h, "Perplexity Sources:"), "Web Search Sources:"), "Custom Sources:")
    else s
  }

  /** When the phrase is present the heading is always inserted, at or before the phrase. */
  lemma SourcesHeadingInserted(s: string)
    requires Contains(s, "SOURCES USED")
    ensures exists i ::
      (i <= Find(s, "SOURCES USED").value && SourcesUsedAt(s, i) && MarkSourcesHeading(s) == s[..i] + "\n\n## " + s[i..])
  {
    var k := Find(s, "SOURCES USED").value;
    ExactPhraseMatches(s, k);
    var i := FindSourcesUsed(s, 0).value;
    assert i <= k;
  }

  // ---------------------------------------------------------------------
  // ensureProperMarkdownFormatting

  /**
   * `ensureProperMarkdownFormatting`: the clean-up, the link and address
   * fixes, control removal, blank-line cap, trim and source headings. The
   * per-line rules for headings, lists, paragraphs, blockquotes and table
   * rows need a line break that is not followed by another one; the cleaned
   * text has none, so they change nothing and are not listed. The early
   * return for empty text is the same as running the rules on it.
   */
  function EnsureProperMarkdownFormatting(text: string): (r: string)
    ensures NoDisplayControls(r)
    ensures !Contains(FormatBody(text), "SOURCES USED") ==> r == FormatBody(text)
    ensures Contains(FormatBody(text), "SOURCES USED") ==> |r| >= |FormatBody(text)| + |"\n\n## "|
    ensures Contains(FormatBody(text), "SOURCES USED") ==> r == FormatSourceSections(FormatBody(text))
  {
    var b := FormatBody(text);
    if Contains(b, "SOURCES USED") then
      SourcesHeadingInserted(b);
      FormatSourceSections(b)
    else b
  }

  /** The steps before the source headings. */
  function FormatBody(text: string): (r: string)
    ensures NoDisplayControls(r)
    ensures r != [] ==> !IsSpace(r[0]) && !IsSpace(r[|r| - 1])
  {
    CappedAndTrimmed(RemoveControls(WrapUrls(LinkFix(CleanHtmlFromPerplexity(text)), None)))
  }

  /** The blank-line cap and the trim, on text already free of display controls. */
  function CappedAndTrimmed(c: string): (r: string)
    requires NoDisplayControls(c)
    ensures NoDisplayControls(r)
    ensures r != [] ==> !IsSpace(r[0]) && !IsSpace(r[|r| - 1])
  {
    CapBlankLinesKeepsNoControls(c);
    TrimKeepsNoControls(CapBlankLines(c));
    Trim(CapBlankLines(c))
  }

  /** Inserting text without display controls keeps a text free of them. */
  lemma InsertKeepsNoControls(s: string, i: nat, ins: string)
    requires i <= |s| && NoDisplayControls(ins)
    ensures NoDisplayControls(s) ==> NoDisplayControls(s[..i] + ins + s[i..])
  {
    if NoDisplayControls(s) {
      var r := s[..i] + ins + s[i..];
      forall k | 0 <= k < |r| ensures !IsDisplayControl(r[k]) {
        if k < i { assert r[k] == s[k]; }
        else if k >= i + |ins| { assert r[k] == s[k - |ins|]; }
        else { assert r[k] == ins[k - i]; }
      }
    }
  }

  /** Capping blank lines keeps a text free of display controls. */
  lemma {:induction false} CapBlankLinesKeepsNoControls(s: string)
    requires NoDisplayControls(s)
    ensures NoDisplayControls(CapBlankLines(s))
    decreases |s|
  {
    if s != [] {
      var m := CapResume(s);
      PiecesKeepNoControls(s, 0, m);
      PiecesKeepNoControls(s, m, |s|);
      assert s[m..|s|] == s[m..];
      CapBlankLinesKeepsNoControls(s[m..]);
      CapHeadKeepsNoControls(s);
    }
  }

  /** A piece of a text free of display controls is free of them. */
  lemma PiecesKeepNoControls(s: string, a: nat, b: nat)
    requires a <= b <= |s| && NoDisplayControls(s)
    ensures NoDisplayControls(s[a..b])
  {
    forall k | 0 <= k < b - a ensures !IsDisplayControl(s[a..b][k]) { assert s[a..b][k] == s[a + k]; }
  }

  /** The step of `CapBlankLinesKeepsNoControls`: the capped head joins the capped rest. */
  lemma CapHeadKeepsNoControls(s: string)
    requires s != [] && NoDisplayControls(s[..CapResume(s)])
    requires NoDisplayControls(CapBlankLines(s[CapResume(s)..]))
    ensures NoDisplayControls(CapBlankLines(s))
  {
    CapBlankLinesStep(s);
    var head := CapHead(s);
    assert NoDisplayControls(head) by {
      if RunOf(s, IsNewline) >= 3 {
        assert head == "\n\n";
      }
    }
    ConcatKeepsNoControls(head, CapBlankLines(s[CapResume(s)..]));
  }

  /** Joining two texts free of display controls gives one free of them. */
  lemma ConcatKeepsNoControls(a: string, b: string)
    requires NoDisplayControls(a) && NoDisplayControls(b)
    ensures NoDisplayControls(a + b)
  {
    forall k | 0 <= k < |a + b| ensures !IsDisplayControl((a + b)[k]) {
      if k < |a| { assert (a + b)[k] == a[k]; } else { assert (a + b)[k] == b[k - |a|]; }
    }
  }

  /** Trimming keeps a text free of display controls. */
  lemma TrimKeepsNoControls(s: string)
    requires NoDisplayControls(s)
    ensures NoDisplayControls(Trim(s))
  {
    var a, b := TrimIsInfix(s);
    forall k | 0 <= k < b - a ensures !IsDisplayControl(s[a..b][k]) { assert s[a..b][k] == s[a + k]; }
  }

  /** Text without line breaks has no blank lines to cap. */
  lemma {:induction false} CapBlankLinesWithoutNewlines(s: string)
    requires '\n' !in s
    ensures CapBlankLines(s) == s
    decreases |s|
  {
    if s != [] {
      assert RunOf(s, IsNewline) == 0;
      assert '\n' !in s[1..];
      CapBlankLinesWithoutNewlines(s[1..]);
      assert [s[0]] + s[1..] == s;
    }
  }

  /**
   * A bare `http://` address made of printable characters other than the
   * ones the formatter reacts to (`< > & * [ ,` and the `S` of the
   * source heading).
   */
  predicate BareAddress(u: string) {
    |u| > 7 && u[..7] == "http://"
    && forall k :: 0 <= k < |u| ==> ' ' < u[k] <= '~' && u[k] !in "<>&*[,S"
  }

  /**
   * The formatter is not idempotent: a bare address is wrapped in angle
   * brackets, and formatting the wrapped address again strips it as a tag.
   */
  lemma FormatterNotIdempotent(u: string)
    requires BareAddress(u)
    ensures EnsureProperMarkdownFormatting(u) == "<" + u + ">"
    ensures EnsureProperMarkdownFormatting(EnsureProperMarkdownFormatting(u)) == []
  {
    FormatOfAddress(u);
    FormatOfWrappedAddress(u);
  }

  /** The example the formatter is not idempotent on. */
  lemma SampleIsBareAddress()
    ensures BareAddress("http://a")
  {
  }

  lemma FormatOfAddress(u: string)
    requires BareAddress(u)
    ensures EnsureProperMarkdownFormatting(u) == "<" + u + ">"
  {
    WrappedAddressIsPlain(u);
    ContainsNeedsFirst("<" + u + ">", "SOURCES USED");
    BodyOfAddress(u);
  }

  lemma BodyOfAddress(u: string)
    requires BareAddress(u)
    ensures FormatBody(u) == "<" + u + ">"
  {
    AddressIsWrapped(u);
    WrappedAddressIsPlain(u);
    PlainBody(u, "<" + u + ">");
  }

  /** Once the address step yields a plain one-line text with no edge whitespace, the body is that text. */
  lemma PlainBody(x: string, w: string)
    requires WrapUrls(LinkFix(CleanHtmlFromPerplexity(x)), None) == w
    requires NoDisplayControls(w) && '\n' !in w && w != [] && !IsSpace(w[0]) && !IsSpace(w[|w| - 1])
    ensures FormatBody(x) == w
  {
    assert RemoveControls(w) == w;
    CapBlankLinesWithoutNewlines(w);
    CustomSources.TrimOfTrimmed(w);
  }

  lemma AddressIsWrapped(u: string)
    requires BareAddress(u)
    ensures WrapUrls(LinkFix(CleanHtmlFromPerplexity(u)), None) == "<" + u + ">"
  {
    assert u[0] == u[..7][0];
    CleanHtmlFromPerplexityOfWord(u);
    assert '[' !in u;
    WrapBareAddress(u);
  }

  /** The wrapped address has no display controls, line breaks or `S`. */
  lemma WrappedAddressIsPlain(u: string)
    requires BareAddress(u)
    ensures NoDisplayControls("<" + u + ">") && '\n' !in "<" + u + ">" && 'S' !in "<" + u + ">"
    ensures !IsSpace(("<" + u + ">")[0]) && !IsSpace(("<" + u + ">")[|u| + 1])
  {
    var w := "<" + u + ">";
    forall k | 0 <= k < |w| ensures ' ' < w[k] <= '~' && w[k] != 'S' {
      if 0 < k < |w| - 1 { assert w[k] == u[k - 1]; }
    }
    PrintableHasNoControls(w);
  }

  /** A bare address is wrapped whole. */
  lemma WrapBareAddress(u: string)
    requires BareAddress(u)
    ensures WrapUrls(u, None) == "<" + u + ">"
  {
    assert StartsWith(u, "http://");
    assert !StartsWith(u, "https://") by { assert u[4] == u[..7][4]; }
    RunOfExact(u[7..], IsUrlChar, |u| - 7);
    assert BareUrlLength(u) == |u|;
    assert u[..|u|] == u && u[|u|..] == [];
  }

  /** Printable ASCII text has no display controls. */
  lemma PrintableHasNoControls(s: string)
    requires forall k :: 0 <= k < |s| ==> ' ' <= s[k] <= '~'
    ensures NoDisplayControls(s)
  {
  }

  /** A pattern whose first character does not occur is not contained. */
  lemma ContainsNeedsFirst(s: string, p: string)
    requires p != [] && p[0] !in s
    ensures !Contains(s, p)
  {
  }

  lemma FormatOfWrappedAddress(u: string)
    requires BareAddress(u)
    ensures EnsureProperMarkdownFormatting("<" + u + ">") == []
  {
    CleanWrappedAddress(u);
    assert LinkFix([]) == [] && WrapUrls([], None) == [];
    assert RemoveControls([]) == [] && CapBlankLines([]) == [];
    assert FormatBody("<" + u + ">") == [];
  }

  lemma CleanWrappedAddress(u: string)
    requires BareAddress(u)
    ensures CleanHtmlFromPerplexity("<" + u + ">") == []
  {
    PerplexityDecodeOfTag(u);
    assert CollapseSpaces(" ") == " ";
    assert CloseBold(" ") == " ";
    assert FixLineStarts(" ") == " ";
    assert BreakSentences(" ") == " ";
    assert TrimStart(" ") == [];
  }

  /** A whole tag decodes to one space. */
  lemma PerplexityDecodeOfTag(u: string)
    requires u != [] && '>' !in u
    ensures PerplexityDecode("<" + u + ">") == " "
  {
    var w := "<" + u + ">";
    assert w[1..] == u + ">";
    assert IndexOfChar(w[1..], '>') == Some(|u|) by { assert (u + ">")[..|u|] == u; }
    assert w[|u| + 2..] == [];
    assert CustomSources.StripTags(w, 1) == " ";
    var strip: string -> string := s => CustomSources.StripTags(s, 1);
    var rest := PERPLEXITY_ENTITY_STEPS + [DropNamedEntities];
    assert PERPLEXITY_DECODE_STEPS == [strip] + rest;
    ChainAppend(w, [strip], rest);
    assert Chain(w, [strip]) == " ";
    EntityStepsFixWithoutAmp(" ");
    ChainFixed(" ", rest);
  }
}
