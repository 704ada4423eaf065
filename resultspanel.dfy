/**
 * The computations behind the results panel (`src/components/ResearchResults.tsx`):
 * which sources are listed and counted, the balance flags and badges, the
 * table of contents and line fixes applied before rendering, the split at
 * the SOURCES USED marker, the paragraph highlighting of the source views,
 * and the AI-search insights prepended to the answer.
 *
 * The `gm` patterns of the component are modelled line by line on the text
 * split at `'\n'`. This is exact for a line whose pattern matches within it;
 * it differs where the pattern's `\s` runs over a line break (a line of
 * hashes or a lone list mark followed by a line break).
 */
module ResultsPanel {
  import opened Wrappers
  import opened Text
  import opened Types
  import Markdown
  import Research
  import Seqs

  // ---------------------------------------------------------------------
  // Which sources are shown and counted

  /** `source.used` is truthy. */
  predicate IsUsed(s: SearchResult) { s.used == Some(true) }

  /** `sources.filter(s => s.used)`. */
  function UsedOnly(rs: seq<SearchResult>): (r: seq<SearchResult>)
    ensures |r| <= |rs|
    ensures forall x :: x in r <==> x in rs && IsUsed(x)
  {
    if rs == [] then []
    else (if IsUsed(rs[0]) then [rs[0]] else []) + UsedOnly(rs[1..])
  }

  /** `sources.filter(s => s.source === tag)`. */
  function OfTag(rs: seq<SearchResult>, tag: string): (r: seq<SearchResult>)
    ensures |r| <= |rs|
    ensures forall x :: x in r <==> x in rs && x.source == tag
  {
    if rs == [] then []
    else (if rs[0].source == tag then [rs[0]] else []) + OfTag(rs[1..], tag)
  }

  /** The used sources of a concatenation are those of each part: `filter` keeps order and repeats. */
  lemma {:induction false} UsedOnlyConcat(a: seq<SearchResult>, b: seq<SearchResult>)
    ensures UsedOnly(a + b) == UsedOnly(a) + UsedOnly(b)
    decreases |a|
  {
    if a == [] {
      assert a + b == b;
    } else {
      assert (a + b)[1..] == a[1..] + b;
      UsedOnlyConcat(a[1..], b);
    }
  }

  /** The listed sources: all of them when "show all" is on, else the used ones. */
  function BaseSources(rs: seq<SearchResult>, showAll: bool): (r: seq<SearchResult>)
    ensures showAll ==> r == rs
    ensures !showAll ==> forall x :: x in r <==> x in rs && IsUsed(x)
    ensures !showAll ==> r == UsedOnly(rs)
  {
    if showAll then rs else UsedOnly(rs)
  }

  /** The type filter of the source list. */
  datatype TypeFilter = AllTypes | PerplexityOnly | SerperOnly | CustomOnly

  /** The source tag a filter other than "all" keeps. */
  function FilterTag(f: TypeFilter): string
    requires !f.AllTypes?
  {
    match f
    case PerplexityOnly => PERPLEXITY
    case SerperOnly => SERPER
    case CustomOnly => CUSTOM
  }

  /** The sources listed: the base sources, narrowed to one type unless the filter is "all". */
  function DisplaySources(base: seq<SearchResult>, f: TypeFilter): (r: seq<SearchResult>)
    ensures f.AllTypes? ==> r == base
    ensures !f.AllTypes? ==> forall x :: x in r <==> x in base && x.source == FilterTag(f)
    ensures !f.AllTypes? ==> r == OfTag(base, FilterTag(f))
  {
    if f.AllTypes? then base else OfTag(base, FilterTag(f))
  }

  /** The sizes behind the badges: all base sources and those of each type. */
  datatype Counts = Counts(all: nat, perplexity: nat, serper: nat, custom: nat)

  function CountsOf(base: seq<SearchResult>): (k: Counts)
    ensures k.perplexity + k.serper + k.custom <= k.all == |base|
    ensures k.perplexity == |OfTag(base, PERPLEXITY)| && k.serper == |OfTag(base, SERPER)| && k.custom == |OfTag(base, CUSTOM)|
  {
    TypesPartition(base);
    Counts(|base|, |OfTag(base, PERPLEXITY)|, |OfTag(base, SERPER)|, |OfTag(base, CUSTOM)|)
  }

  /** A source has one tag, so the three per-type lists together are no longer than the list. */
  lemma {:induction false} TypesPartition(rs: seq<SearchResult>)
    ensures |OfTag(rs, PERPLEXITY)| + |OfTag(rs, SERPER)| + |OfTag(rs, CUSTOM)| <= |rs|
  {
    if rs != [] {
      TypesPartition(rs[1..]);
    }
  }

  /** `Math.round((c / all) * 100)` for a count `c > 0`, and 0 for none, in exact arithmetic. */
  function ShownPercent(c: nat, all: nat): (p: nat)
    requires c <= all
    ensures p <= 100
    ensures c == 0 ==> p == 0
    ensures 0 < c == all ==> p == 100
    ensures 0 < c ==> p == Research.Percent(c, all)
  {
    if c == 0 then 0
    else
      Research.PercentOfAll(all);
      PercentAtMostAll(c, all);
      Research.Percent(c, all)
  }

  lemma PercentAtMostAll(c: nat, t: nat)
    requires 0 < c <= t
    ensures Research.Percent(c, t) <= 100
  {
    var p := Research.Percent(c, t);
    Research.PercentRounds(c, t);
    assert 2 * t * p < 2 * t * 101;
    MulCancel(2 * t, p, 101);
  }

  lemma MulCancel(a: nat, x: nat, y: nat)
    requires a * x < a * y
    ensures x < y
  {
    if y <= x {
      Research.MulMono(a, y, x);
    }
  }

  /** The share reaches 20%: `(c / all) * 100 >= 20`, where a zero count has share 0. */
  predicate AtLeastFifth(c: nat, all: nat) {
    c > 0 && 5 * c >= all
  }

  /** Some source, used or not, is of type `tag` (`result.sources.some(...)`). */
  predicate AnyOfTag(rs: seq<SearchResult>, tag: string) {
    exists i :: 0 <= i < |rs| && rs[i].source == tag
  }

  /** Every type is present; custom sources count only when the result has any. */
  predicate HasAllSourceTypes(k: Counts, hasCustom: bool) {
    k.perplexity > 0 && k.serper > 0 && (!hasCustom || k.custom > 0)
  }

  /** Each type holds at least a fifth of the base sources; custom only when the result has any. */
  predicate IsWellBalanced(k: Counts, hasCustom: bool) {
    AtLeastFifth(k.perplexity, k.all) && AtLeastFifth(k.serper, k.all)
    && (hasCustom ==> AtLeastFifth(k.custom, k.all))
  }

  /** What the balance badges say. */
  datatype Verdict = Balanced | NeedsBetterBalance | MissingSourceTypes

  /**
   * The badge: missing types first, then balance. A balanced count always
   * has every type, so the badge is "balanced" exactly when the flag is set.
   */
  function VerdictOf(k: Counts, hasCustom: bool): (v: Verdict)
    ensures v == Balanced <==> IsWellBalanced(k, hasCustom)
    ensures v == MissingSourceTypes <==> !HasAllSourceTypes(k, hasCustom)
    ensures v == NeedsBetterBalance <==> HasAllSourceTypes(k, hasCustom) && !IsWellBalanced(k, hasCustom)
  {
    if !HasAllSourceTypes(k, hasCustom) then MissingSourceTypes
    else if IsWellBalanced(k, hasCustom) then Balanced
    else NeedsBetterBalance
  }

  const SOURCES_BALANCED: string := "Sources Balanced"
  const WELL_BALANCED: string := "Well Balanced"
  const NEEDS_BALANCE: string := "Needs Better Balance"
  const MISSING_TYPES: string := "Missing Source Types"

  /** The header badge's text. */
  function HeaderBadge(v: Verdict): string {
    match v
    case Balanced => SOURCES_BALANCED
    case NeedsBetterBalance => NEEDS_BALANCE
    case MissingSourceTypes => MISSING_TYPES
  }

  /** The balance panel's badge: the same verdict, worded differently when balanced. */
  function PanelBadge(v: Verdict): string {
    match v
    case Balanced => WELL_BALANCED
    case NeedsBetterBalance => NEEDS_BALANCE
    case MissingSourceTypes => MISSING_TYPES
  }

  const WARN_PERPLEXITY: string := "Perplexity sources, "
  const WARN_WEB: string := "Web Search sources, "
  const WARN_CUSTOM: string := "Custom sources, "

  /** The types named in the warning shown while a type is missing: every type whose count is zero. */
  function MissingNames(k: Counts): (r: string)
    ensures r == [] <==> k.perplexity > 0 && k.serper > 0 && k.custom > 0
  {
    (if k.perplexity == 0 then WARN_PERPLEXITY else [])
    + (if k.serper == 0 then WARN_WEB else [])
    + (if k.custom == 0 then WARN_CUSTOM else [])
  }

  /**
   * The warning is shown for missing types and names each type with no
   * base source; it names custom sources even when the result has none.
   */
  lemma WarningNamesAbsentCustom(k: Counts)
    requires k.perplexity == 0 && k.custom == 0
    ensures !HasAllSourceTypes(k, false)
    ensures MissingNames(k) == WARN_PERPLEXITY + (if k.serper == 0 then WARN_WEB else []) + WARN_CUSTOM
  {
  }

  /** An unused custom source hides nothing from the check: with "show all" off it still forces "missing". */
  lemma UnusedCustomMeansMissing(rs: seq<SearchResult>, i: nat)
    requires i < |rs| && rs[i].source == CUSTOM
    requires forall x :: x in rs && x.source == CUSTOM ==> !IsUsed(x)
    ensures VerdictOf(CountsOf(BaseSources(rs, false)), AnyOfTag(rs, CUSTOM)) == MissingSourceTypes
  {
    assert AnyOfTag(rs, CUSTOM) by { assert rs[i].source == CUSTOM; }
    NoneUsedOfTag(rs, CUSTOM);
  }

  /** When no source of a type is used, the used sources hold none of that type. */
  lemma {:induction false} NoneUsedOfTag(rs: seq<SearchResult>, tag: string)
    requires forall x :: x in rs && x.source == tag ==> !IsUsed(x)
    ensures OfTag(UsedOnly(rs), tag) == []
  {
    if rs != [] {
      NoneUsedOfTag(rs[1..], tag);
      var head := if IsUsed(rs[0]) then [rs[0]] else [];
      assert UsedOnly(rs) == head + UsedOnly(rs[1..]);
      OfTagConcat(head, UsedOnly(rs[1..]), tag);
    }
  }

  lemma {:induction false} OfTagConcat(a: seq<SearchResult>, b: seq<SearchResult>, tag: string)
    ensures OfTag(a + b, tag) == OfTag(a, tag) + OfTag(b, tag)
    decreases |a|
  {
    if a == [] {
      assert a + b == b;
    } else {
      assert (a + b)[1..] == a[1..] + b;
      OfTagConcat(a[1..], b, tag);
    }
  }

  /** Two used sources of each of the first two types and none custom: balanced at 50% each. */
  lemma EvenSplitBalanced(n: nat)
    requires n > 0
    ensures var k := Counts(2 * n, n, n, 0);
      VerdictOf(k, false) == Balanced && ShownPercent(k.perplexity, k.all) == 50
  {
    Research.PercentOfHalf(n);
  }

  /** A share that rounds to 20% for display can still be below the 20% the flag needs. */
  lemma RoundedShareMisleads()
    ensures ShownPercent(49, 250) == 20 && !AtLeastFifth(49, 250)
  {
    Research.PercentUnique(49, 250, 20);
  }

  // ---------------------------------------------------------------------
  // Section formatting (`addSectionFormatting`)

  /** The text's lines, split at `'\n'`. */
  function Lines(s: string): seq<string> {
    Split(s, '\n')
  }

  /**
   * `replace(/^(#+)\s+(.+)$/gm, '$1 $2')` on one line: the whitespace after
   * the hashes becomes one space; a line of hashes and only whitespace keeps
   * one space and the last whitespace character as its title.
   */
  function FormatHeadingLine(l: string): string {
    var h := RunOf(l, Markdown.IsHash);
    if h == 0 then l
    else
      var w := RunOf(l[h..], IsSpace);
      if w == 0 then l
      else if h + w < |l| then l[..h] + " " + l[h + w..]
      else if w >= 2 then l[..h] + " " + [l[|l| - 1]]
      else l
  }

  /** Formatting a heading leaves its run of hashes as it was. */
  lemma HeadingLineKeepsHashes(l: string)
    ensures RunOf(FormatHeadingLine(l), Markdown.IsHash) == RunOf(l, Markdown.IsHash)
    ensures FormatHeadingLine(l)[..RunOf(l, Markdown.IsHash)] == l[..RunOf(l, Markdown.IsHash)]
  {
    var h := RunOf(l, Markdown.IsHash);
    var r := FormatHeadingLine(l);
    if r != l {
      assert r[..h] == l[..h] && r[h] == ' ';
      RunOfExact(r, Markdown.IsHash, h);
    }
  }

  /** Formatting a heading keeps its hashes and what the heading says once leading whitespace is dropped. */
  lemma HeadingLineKeepsTitle(l: string)
    ensures var h := RunOf(l, Markdown.IsHash);
      TrimStart(FormatHeadingLine(l)[h..]) == TrimStart(l[h..])
  {
    var h := RunOf(l, Markdown.IsHash);
    if h > 0 {
      var w := RunOf(l[h..], IsSpace);
      if w > 0 && h + w < |l| {
        TitleKeptWithText(l, h, w);
      } else if w >= 2 {
        TitleKeptBlank(l, h, w);
      }
    }
  }

  lemma TitleKeptWithText(l: string, h: nat, w: nat)
    requires h == RunOf(l, Markdown.IsHash) > 0 && h + w < |l| && w == RunOf(l[h..], IsSpace) > 0
    ensures TrimStart(FormatHeadingLine(l)[h..]) == TrimStart(l[h..])
  {
    TitleAfterHashes(l, h, w);
    TrimStartAfterSpace(l[h + w..]);
    TrimStartPastRun(l, h, w);
  }

  lemma TrimStartAfterSpace(c: string)
    ensures TrimStart(" " + c) == TrimStart(c)
  {
    assert (" " + c)[1..] == c;
  }

  lemma TrimStartPastRun(l: string, h: nat, w: nat)
    requires h <= |l| && w == RunOf(l[h..], IsSpace)
    ensures TrimStart(l[h..]) == TrimStart(l[h + w..])
  {
    TrimStartSkip(l[h..], w);
    assert l[h..][w..] == l[h + w..];
  }

  lemma TitleAfterHashes(l: string, h: nat, w: nat)
    requires h == RunOf(l, Markdown.IsHash) > 0 && h + w < |l| && w == RunOf(l[h..], IsSpace) > 0
    ensures FormatHeadingLine(l)[h..] == " " + l[h + w..]
  {
    HeadingWithText(l, h, w);
    ConcatAssoc(l[..h], " ", l[h + w..]);
    DropPrefix(l[..h], " " + l[h + w..]);
  }

  /** A heading with text after its whitespace: hashes, one space, the text. */
  lemma HeadingWithText(l: string, h: nat, w: nat)
    requires h == RunOf(l, Markdown.IsHash) > 0 && h + w < |l| && w == RunOf(l[h..], IsSpace) > 0
    ensures FormatHeadingLine(l) == l[..h] + " " + l[h + w..]
  {
  }

  /** `trimStart` passes over leading whitespace. */
  lemma {:induction false} TrimStartSkip(s: string, k: nat)
    requires k <= |s| && forall i :: 0 <= i < k ==> IsSpace(s[i])
    ensures TrimStart(s) == TrimStart(s[k..])
    decreases k
  {
    if k > 0 {
      assert s[1..][k - 1..] == s[k..];
      TrimStartSkip(s[1..], k - 1);
    }
  }

  lemma TitleKeptBlank(l: string, h: nat, w: nat)
    requires h == RunOf(l, Markdown.IsHash) > 0 && h + w >= |l| && w == RunOf(l[h..], IsSpace) >= 2
    ensures TrimStart(FormatHeadingLine(l)[h..]) == TrimStart(l[h..])
  {
    var rest := l[h..];
    var c := [l[|l| - 1]];
    HeadingAllBlank(l, h, w);
    ConcatAssoc(l[..h], " ", c);
    DropPrefix(l[..h], " " + c);
    WhitespaceTail(l, h, w);
    TrimStartOfBlank(" " + c);
    TrimStartOfBlank(rest);
  }

  lemma WhitespaceTail(l: string, h: nat, w: nat)
    requires h == RunOf(l, Markdown.IsHash) > 0 && h + w >= |l| && w == RunOf(l[h..], IsSpace) >= 2
    ensures IsBlank(l[h..]) && IsBlank(" " + [l[|l| - 1]])
  {
    assert l[h..][w - 1] == l[|l| - 1];
  }

  /** A heading of hashes and whitespace only: hashes, one space, the last whitespace character. */
  lemma HeadingAllBlank(l: string, h: nat, w: nat)
    requires h == RunOf(l, Markdown.IsHash) > 0 && h + w >= |l| && w == RunOf(l[h..], IsSpace) >= 2
    ensures FormatHeadingLine(l) == l[..h] + " " + [l[|l| - 1]]
  {
  }

  /** A blank text trims to nothing. */
  lemma {:induction false} TrimStartOfBlank(w: string)
    requires IsBlank(w)
    ensures TrimStart(w) == []
    decreases |w|
  {
    if w != [] {
      TrimStartOfBlank(w[1..]);
    }
  }

  /** Formatting a heading line twice changes nothing more. */
  lemma HeadingLineIdempotent(l: string)
    ensures FormatHeadingLine(FormatHeadingLine(l)) == FormatHeadingLine(l)
  {
    var h := RunOf(l, Markdown.IsHash);
    if FormatHeadingLine(l) != l {
      var w := RunOf(l[h..], IsSpace);
      HeadingLineKeepsHashes(l);
      if h + w < |l| {
        IdempotentWithText(l, h, w);
      } else {
        IdempotentBlank(l, h, w);
      }
    }
  }

  lemma IdempotentWithText(l: string, h: nat, w: nat)
    requires h == RunOf(l, Markdown.IsHash) > 0 && h + w < |l| && w == RunOf(l[h..], IsSpace) > 0
    requires RunOf(FormatHeadingLine(l), Markdown.IsHash) == h
    ensures FormatHeadingLine(FormatHeadingLine(l)) == FormatHeadingLine(l)
  {
    TitleAfterHashes(l, h, w);
    assert !IsSpace(l[h..][w]);
    FixedHeadingStable(FormatHeadingLine(l), h);
  }

  /** Hashes, one space and a title that starts with a non-space: already fixed. */
  lemma FixedHeadingStable(r: string, h: nat)
    requires h == RunOf(r, Markdown.IsHash) > 0 && h + 1 < |r| && r[h] == ' ' && !IsSpace(r[h + 1])
    ensures FormatHeadingLine(r) == r
  {
    var t := r[h..];
    assert t[0] == ' ' && t[1] == r[h + 1];
    SpaceThenText(t);
    HeadingWithText(r, h, 1);
    SplitAround(r, h);
  }

  lemma SpaceThenText(t: string)
    requires |t| >= 2 && t[0] == ' ' && !IsSpace(t[1])
    ensures RunOf(t, IsSpace) == 1
  {
    RunOfExact(t, IsSpace, 1);
  }

  lemma IdempotentBlank(l: string, h: nat, w: nat)
    requires h == RunOf(l, Markdown.IsHash) > 0 && h + w >= |l| && w == RunOf(l[h..], IsSpace) >= 2
    requires RunOf(FormatHeadingLine(l), Markdown.IsHash) == h
    ensures FormatHeadingLine(FormatHeadingLine(l)) == FormatHeadingLine(l)
  {
    HeadingAllBlank(l, h, w);
    WhitespaceTail(l, h, w);
    assert IsSpace(l[h..][w - 1]);
    BlankHeadingStable(FormatHeadingLine(l), h);
  }

  /** Hashes, one space and one more whitespace character: already fixed. */
  lemma BlankHeadingStable(r: string, h: nat)
    requires h == RunOf(r, Markdown.IsHash) > 0 && |r| == h + 2 && r[h] == ' ' && IsSpace(r[h + 1])
    ensures FormatHeadingLine(r) == r
  {
    var t := r[h..];
    assert t[0] == ' ' && t[1] == r[h + 1] && |t| == 2;
    RunOfExact(t, IsSpace, 2);
    HeadingAllBlank(r, h, 2);
    SplitAround(r, h);
    assert r[h + 1..] == [r[|r| - 1]];
  }

  /** `replace(/^(\s*[-*])\s+/gm, '$1 ')` on one line: the whitespace after a list mark becomes one space. */
  function ListLine(l: string): (r: string)
    ensures |r| <= |l|
    ensures var a := RunOf(l, IsSpace);
      !(ListMarkAt(l, a) && 0 < RunOf(l[a + 1..], IsSpace)) ==> r == l
    ensures var a := RunOf(l, IsSpace);
      ListMarkAt(l, a) && 0 < RunOf(l[a + 1..], IsSpace) ==>
        |r| == a + 2 + (|l| - a - 1 - RunOf(l[a + 1..], IsSpace)) && r[..a + 2] == l[..a + 1] + " "
        && r[a + 2..] == l[a + 1 + RunOf(l[a + 1..], IsSpace)..] && (r[a + 2..] == [] || !IsSpace(r[a + 2]))
  {
    ListLineFrom(l, RunOf(l, IsSpace))
  }

  /** The list fix once the indentation, `a` characters long, has been skipped. */
  function ListLineFrom(l: string, a: nat): (r: string)
    requires a <= |l|
    ensures |r| <= |l|
  {
    if ListMarkAt(l, a) then AfterMark(l, a, RunOf(l[a + 1..], IsSpace)) else l
  }

  /** Position `a` of `l` holds a list mark, `-` or `*`. */
  predicate ListMarkAt(l: string, a: nat) {
    a < |l| && (l[a] == '-' || l[a] == '*')
  }

  /** The whitespace run of length `b` after the mark at `a` becomes one space; an empty run is left alone. */
  function AfterMark(l: string, a: nat, b: nat): (r: string)
    requires a + 1 + b <= |l|
    ensures |r| <= |l|
  {
    if b > 0 then MarkFixed(l, a, b) else l
  }

  /** The indentation and mark up to `a`, one space, and what follows the `b` whitespace characters after the mark. */
  function MarkFixed(l: string, a: nat, b: nat): (r: string)
    requires a + 1 + b <= |l|
    ensures |r| == |l| - b + 1
  {
    l[..a + 1] + " " + l[a + 1 + b..]
  }

  /** Fixing a list line twice changes nothing more. */
  lemma ListLineIdempotent(l: string)
    ensures ListLine(ListLine(l)) == ListLine(l)
  {
    var a := RunOf(l, IsSpace);
    if ListMarkAt(l, a) {
      var b := RunOf(l[a + 1..], IsSpace);
      if b > 0 {
        ListLineShape(l, a, b);
        FixedListLineShape(l, a, b);
        ListLineOfFixed(MarkFixed(l, a, b), a);
      }
    }
  }

  /** A line the list fix changes: indentation of `a` characters, a mark, `b` whitespace characters, the rest. */
  lemma ListLineShape(l: string, a: nat, b: nat)
    requires a == RunOf(l, IsSpace) && ListMarkAt(l, a)
    requires b == RunOf(l[a + 1..], IsSpace) > 0
    ensures a + 1 + b <= |l| && ListLine(l) == MarkFixed(l, a, b)
  {
    ListLineAtMark(l, a, b);
  }

  /** Past the indentation and the mark, the list fix is decided by the whitespace run after the mark. */
  lemma ListLineAtMark(l: string, a: nat, b: nat)
    requires a == RunOf(l, IsSpace) && ListMarkAt(l, a)
    requires b == RunOf(l[a + 1..], IsSpace)
    ensures a + 1 + b <= |l| && ListLine(l) == AfterMark(l, a, b)
  {
    assert ListLine(l) == ListLineFrom(l, a);
  }

  /** The fixed line keeps the indentation and the mark, then one space, then no more whitespace. */
  lemma FixedListLineShape(l: string, a: nat, b: nat)
    requires a == RunOf(l, IsSpace) && ListMarkAt(l, a)
    requires a + 1 + b <= |l| && b == RunOf(l[a + 1..], IsSpace) > 0
    ensures var r := MarkFixed(l, a, b);
      a == RunOf(r, IsSpace) && r[a] == l[a] && r[a + 1] == ' ' && (a + 2 < |r| ==> !IsSpace(r[a + 2]))
  {
    var r := MarkFixed(l, a, b);
    assert r[..a + 1] == l[..a + 1];
    RunOfExact(r, IsSpace, a);
    if a + 2 < |r| {
      assert r[a + 2] == l[a + 1 + b] == l[a + 1..][b];
    }
  }

  /** A list line with exactly one space after its mark is left as it is. */
  lemma ListLineOfFixed(r: string, a: nat)
    requires a + 1 < |r| && a == RunOf(r, IsSpace) && (r[a] == '-' || r[a] == '*') && r[a + 1] == ' '
    requires a + 2 < |r| ==> !IsSpace(r[a + 2])
    ensures ListLine(r) == r
  {
    OneSpaceAfterMark(r, a);
    ListLineShape(r, a, 1);
    MarkFixedOne(r, a);
  }

  lemma OneSpaceAfterMark(r: string, a: nat)
    requires a + 1 < |r| && r[a + 1] == ' '
    requires a + 2 < |r| ==> !IsSpace(r[a + 2])
    ensures RunOf(r[a + 1..], IsSpace) == 1
  {
    RunOfExact(r[a + 1..], IsSpace, 1);
  }

  lemma MarkFixedOne(r: string, a: nat)
    requires a + 1 < |r| && r[a + 1] == ' '
    ensures MarkFixed(r, a, 1) == r
  {
    SplitAround(r, a + 1);
  }

  lemma SplitAround(r: string, k: nat)
    requires k < |r| && r[k] == ' '
    ensures r[..k] + " " + r[k + 1..] == r
  {
    assert r == r[..k] + [r[k]] + r[k + 1..];
  }

  /** `^##\s+(.+)$` matches the line: two hashes, whitespace, then at least one more character. */
  predicate IsSectionHeading(l: string) {
    |l| >= 4 && l[0] == '#' && l[1] == '#' && IsSpace(l[2])
  }

  /** `h.replace(/^##\s+/, '').trim()`: the heading's text. */
  function HeadingText(l: string): string
    requires IsSectionHeading(l)
  {
    Trim(l[2..])
  }

  /** The texts of the `## ` headings, in order. */
  function Headings(lines: seq<string>): (r: seq<string>)
    ensures |r| <= |lines|
  {
    if lines == [] then []
    else (if IsSectionHeading(lines[0]) then [HeadingText(lines[0])] else []) + Headings(lines[1..])
  }

  /** The heading texts of a concatenation of lines are those of each part, in order. */
  lemma {:induction false} HeadingsConcat(a: seq<string>, b: seq<string>)
    ensures Headings(a + b) == Headings(a) + Headings(b)
    decreases |a|
  {
    if a == [] {
      assert a + b == b;
    } else {
      var head: seq<string> := if IsSectionHeading(a[0]) then [HeadingText(a[0])] else [];
      assert (a + b)[0] == a[0];
      assert (a + b)[1..] == a[1..] + b;
      assert Headings(a + b) == head + Headings(a[1..] + b);
      HeadingsConcat(a[1..], b);
      Seqs.Assoc(head, Headings(a[1..]), Headings(b));
    }
  }

  /** A single line gives its trimmed text when it is a `## ` heading, and nothing otherwise. */
  lemma HeadingsOne(l: string)
    ensures Headings([l]) == if IsSectionHeading(l) then [Trim(l[2..])] else []
  {
    assert [l][1..] == [];
  }

  /** The characters the anchor keeps: `\w`, whitespace and `-`. */
  predicate AnchorChar(c: char) { IsWordChar(c) || IsSpace(c) || c == '-' }

  /** `replace(/\s+/g, '-')`: every run of whitespace becomes one dash. */
  function DashRuns(s: string): (r: string)
    ensures forall i :: 0 <= i < |r| ==> !IsSpace(r[i]) && (r[i] == '-' || r[i] in s)
    decreases |s|
  {
    if s == [] then []
    else if IsSpace(s[0]) then
      var n := RunOf(s, IsSpace);
      "-" + DashRuns(s[n..])
    else [s[0]] + DashRuns(s[1..])
  }

  /** A character that is not whitespace is kept as it is. */
  lemma DashRunsKeep(c: char, s: string)
    requires !IsSpace(c)
    ensures DashRuns([c] + s) == [c] + DashRuns(s)
  {
    assert ([c] + s)[1..] == s;
  }

  /** A whole run of whitespace, however long, becomes one dash. */
  lemma DashRunsRun(w: string, s: string)
    requires w != [] && forall i :: 0 <= i < |w| ==> IsSpace(w[i])
    requires s == [] || !IsSpace(s[0])
    ensures DashRuns(w + s) == "-" + DashRuns(s)
  {
    var t := w + s;
    assert forall i :: 0 <= i < |w| ==> t[i] == w[i];
    if |w| < |t| {
      assert t[|w|] == s[0];
    }
    RunOfExact(t, IsSpace, |w|);
    assert t[|w|..] == s;
  }

  /** Every character `Filter` keeps comes from its input. */
  lemma {:induction false} FilterFromInput(s: string, keep: char -> bool)
    ensures forall i :: 0 <= i < |Filter(s, keep)| ==> Filter(s, keep)[i] in s
    decreases |s|
  {
    if s != [] {
      FilterFromInput(s[1..], keep);
    }
  }

  /** A heading's link anchor: lower-cased, only `\w`, whitespace and `-` kept, whitespace runs made dashes. */
  function Anchor(text: string): (r: string)
    ensures forall i :: 0 <= i < |r| ==> (IsWordChar(r[i]) || r[i] == '-') && !IsUpperAscii(r[i])
    ensures r == DashRuns(Filter(Lower(text), AnchorChar))
  {
    var kept := Filter(Lower(text), AnchorChar);
    FilterFromInput(Lower(text), AnchorChar);
    DashRuns(kept)
  }

  const TOC_HEADING: string := "## Table of Contents"

  /** One table-of-contents line: the heading text linked to its anchor. */
  function TocEntry(text: string): string {
    "- [" + text + "](#" + Anchor(text) + ")"
  }

  /** The list fix leaves a table-of-contents line as it is. */
  lemma TocEntryListed(text: string)
    ensures ListLine(TocEntry(text)) == TocEntry(text)
  {
    var e := TocEntry(text);
    assert e[0] == '-' && e[1] == ' ' && e[2] == '[';
    RunOfExact(e, IsSpace, 0);
    ListLineOfFixed(e, 0);
  }

  /** The table of contents: its heading, then one entry per heading text. */
  function TocLines(hs: seq<string>): (r: seq<string>)
    ensures |r| == |hs| + 1 && r[0] == TOC_HEADING
    ensures forall i :: 0 <= i < |hs| ==> r[i + 1] == TocEntry(hs[i])
  {
    [TOC_HEADING] + seq(|hs|, i requires 0 <= i < |hs| => TocEntry(hs[i]))
  }

  /** The heading fix on every line. */
  function HeadingLines(ls: seq<string>): (r: seq<string>)
    ensures |r| == |ls| && forall i :: 0 <= i < |ls| ==> r[i] == FormatHeadingLine(ls[i])
  {
    seq(|ls|, i requires 0 <= i < |ls| => FormatHeadingLine(ls[i]))
  }

  /** The list fix on every line. */
  function ListLines(ls: seq<string>): (r: seq<string>)
    ensures |r| == |ls| && forall i :: 0 <= i < |ls| ==> r[i] == ListLine(ls[i])
  {
    seq(|ls|, i requires 0 <= i < |ls| => ListLine(ls[i]))
  }

  /**
   * `addSectionFormatting` as lines: each heading line formatted; when there
   * are at least three `## ` headings, the table of contents and an empty
   * line come first (`toc + '\n\n' + formatted`); then the list fix on every line.
   */
  function SectionLines(content: string): seq<string> {
    var lines := Lines(content);
    FormattedLines(Headings(lines), lines)
  }

  /** The lines of `addSectionFormatting` for the `## ` heading texts `hs` of `lines`. */
  function FormattedLines(hs: seq<string>, lines: seq<string>): seq<string> {
    ListLines(if |hs| >= 3 then TocLines(hs) + [""] + HeadingLines(lines) else HeadingLines(lines))
  }

  /** `addSectionFormatting(content)`. */
  function FormatSections(content: string): string {
    Join(SectionLines(content), "\n")
  }

  /** Fewer than three `## ` headings: no line is added and each line is only formatted. */
  lemma NoTocBelowThree(content: string)
    requires |Headings(Lines(content))| < 3
    ensures var ls := SectionLines(content);
      |ls| == |Lines(content)|
      && forall i :: 0 <= i < |ls| ==> ls[i] == ListLine(FormatHeadingLine(Lines(content)[i]))
  {
  }

  /** Three or more: the table heading, one entry per heading in order, an empty line, then the formatted lines. */
  lemma TocFromThree(content: string)
    requires |Headings(Lines(content))| >= 3
    ensures var ls := SectionLines(content);
      var hs := Headings(Lines(content));
      var n := |Lines(content)|;
      |ls| == |hs| + 2 + n
      && ls[0] == TOC_HEADING
      && (forall i :: 0 <= i < |hs| ==> ls[i + 1] == TocEntry(hs[i]))
      && ls[|hs| + 1] == ""
      && forall i :: 0 <= i < n ==> ls[|hs| + 2 + i] == ListLine(FormatHeadingLine(Lines(content)[i]))
  {
    var lines := Lines(content);
    var hs := Headings(lines);
    assert FormattedLines(hs, lines) == ListLines(TocLines(hs) + [""] + HeadingLines(lines));
    TocLayout(hs, lines);
  }

  /** The lines of a table of contents for `hs`, an empty line and the formatted `lines`, after the list fix. */
  lemma TocLayout(hs: seq<string>, lines: seq<string>)
    ensures var ls := ListLines(TocLines(hs) + [""] + HeadingLines(lines));
      |ls| == |hs| + 2 + |lines|
      && ls[0] == TOC_HEADING
      && (forall i :: 0 <= i < |hs| ==> ls[i + 1] == TocEntry(hs[i]))
      && ls[|hs| + 1] == ""
      && forall i :: 0 <= i < |lines| ==> ls[|hs| + 2 + i] == ListLine(FormatHeadingLine(lines[i]))
  {
    ListedToc(hs, HeadingLines(lines));
    ListedAfter(TocLines(hs) + [""], lines, |hs| + 2);
  }

  lemma ListLineEmpty()
    ensures ListLine("") == ""
  {
    assert ListLineFrom("", 0) == "";
  }

  /** The list fix leaves the table of contents as it is. */
  lemma ListedToc(hs: seq<string>, body: seq<string>)
    ensures var ls := ListLines(TocLines(hs) + [""] + body);
      ls[0] == TOC_HEADING && (forall i :: 0 <= i < |hs| ==> ls[i + 1] == TocEntry(hs[i])) && ls[|hs| + 1] == ""
  {
    var all := TocLines(hs) + [""] + body;
    RunOfExact(TOC_HEADING, IsSpace, 0);
    assert ListLines(all)[0] == ListLine(TOC_HEADING) == TOC_HEADING;
    forall i | 0 <= i < |hs| ensures ListLines(all)[i + 1] == TocEntry(hs[i]) {
      assert all[i + 1] == TocEntry(hs[i]);
      TocEntryListed(hs[i]);
    }
    assert all[|hs| + 1] == "";
    ListLineEmpty();
  }

  /** The list fix on lines after a prefix is the fix on each of them. */
  lemma ListedAfter(prefix: seq<string>, lines: seq<string>, k: nat)
    requires k == |prefix|
    ensures forall i :: 0 <= i < |lines| ==>
      ListLines(prefix + HeadingLines(lines))[k + i] == ListLine(FormatHeadingLine(lines[i]))
  {
    var body := HeadingLines(lines);
    forall i | 0 <= i < |lines| ensures ListLines(prefix + body)[k + i] == ListLine(FormatHeadingLine(lines[i])) {
      assert (prefix + body)[k + i] == body[i];
    }
  }

  // ---------------------------------------------------------------------
  // The SOURCES USED split (`split(/^SOURCES\s*USED:?/mi)`)

  /** The marker starts at `i`: at the start of a line, `sources`, whitespace, `used`, ignoring case. */
  predicate MarkerAt(s: string, i: int) {
    0 <= i < |s| && (i == 0 || s[i - 1] == '\n') && Markdown.SourcesUsedAt(s, i)
  }

  /** Where the marker starting at `i` ends: after `used` and an optional colon. */
  function MarkerEnd(s: string, i: nat): (e: nat)
    requires MarkerAt(s, i)
    ensures i + 11 <= e <= |s|
    ensures var u := i + 7 + RunOf(s[i + 7..], IsSpace);
      (e == u + 4 && (e == |s| || s[e] != ':')) || (e == u + 5 && s[u + 4] == ':')
  {
    var k := i + 7 + RunOf(s[i + 7..], IsSpace) + 4;
    if k < |s| && s[k] == ':' then k + 1 else k
  }

  /** The first marker at or after `from`. */
  function FindMarker(s: string, from: nat): (r: Option<nat>)
    requires from <= |s|
    ensures r.Some? ==> from <= r.value < |s| && MarkerAt(s, r.value)
    ensures r.Some? ==> forall j :: from <= j < r.value ==> !MarkerAt(s, j)
    ensures r.None? ==> forall j :: from <= j < |s| ==> !MarkerAt(s, j)
    decreases |s| - from
  {
    if MarkerAt(s, from) then Some(from)
    else if from == |s| then None
    else
      var r := FindMarker(s, from + 1);
      NoMarkerFrom(s, from, if r.Some? then r.value else |s|);
      r
  }

  /** No marker at `from` and none after it up to `to`: none from `from` up to `to`. */
  lemma NoMarkerFrom(s: string, from: nat, to: nat)
    requires !MarkerAt(s, from) && forall j :: from + 1 <= j < to ==> !MarkerAt(s, j)
    ensures forall j :: from <= j < to ==> !MarkerAt(s, j)
  {
    forall j | from <= j < to ensures !MarkerAt(s, j) {
      if j > from { assert from + 1 <= j < to; }
    }
  }

  /** Where the split cuts: the first marker spans `[marker, start)`, the section runs from `start` to `stop`. */
  datatype Cut = Cut(marker: nat, start: nat, stop: nat)

  /** The cut at the first marker; the section stops at the next marker or at the end of the text. */
  function FirstCut(s: string): (c: Option<Cut>)
    ensures c.None? <==> forall j :: 0 <= j ==> !MarkerAt(s, j)
    ensures c.Some? ==>
      c.value.marker + 11 <= c.value.start <= c.value.stop <= |s|
      && MarkerAt(s, c.value.marker) && c.value.start == MarkerEnd(s, c.value.marker)
      && (forall j :: 0 <= j < c.value.marker ==> !MarkerAt(s, j))
      && (forall j :: c.value.start <= j < c.value.stop ==> !MarkerAt(s, j))
      && (c.value.stop < |s| ==> MarkerAt(s, c.value.stop))
  {
    match FindMarker(s, 0)
    case None => None
    case Some(i) =>
      var e := MarkerEnd(s, i);
      match FindMarker(s, e)
      case None => Some(Cut(i, e, |s|))
      case Some(n) => Some(Cut(i, e, n))
  }

  /** The first piece of the split: the text before the first marker. */
  function MainContent(s: string): (r: string)
    ensures |r| <= |s| && r == s[..|r|]
    ensures forall j :: 0 <= j < |r| ==> !MarkerAt(s, j)
    ensures |r| < |s| <==> exists j :: 0 <= j && MarkerAt(s, j)
    ensures |r| < |s| ==> MarkerAt(s, |r|)
  {
    match FirstCut(s)
    case None => s
    case Some(c) => s[..c.marker]
  }

  /** The second piece, when there is one: from the end of the first marker to the next marker or the end. */
  function SourcesSection(s: string): (r: Option<string>)
    ensures r.None? <==> MainContent(s) == s
  {
    match FirstCut(s)
    case None => None
    case Some(c) => Some(s[c.start..c.stop])
  }

  /** The text is the main content, the first marker, the section and whatever follows a second marker, which the split drops. */
  lemma SplitPieces(s: string)
    requires FirstCut(s).Some?
    ensures var c := FirstCut(s).value;
      s == MainContent(s) + s[c.marker..c.start] + SourcesSection(s).value + s[c.stop..]
  {
    var c := FirstCut(s).value;
    Pieces(s, c.marker, c.start, c.stop);
  }

  // ---------------------------------------------------------------------
  // Paragraphs (`split(/\n\n+/)`)

  /** Two line breaks in a row start at `i`. */
  predicate BreakAt(s: string, i: int) {
    0 <= i && i + 1 < |s| && s[i] == '\n' && s[i + 1] == '\n'
  }

  /** The first paragraph break at or after `from`. */
  function FindBreak(s: string, from: nat): (r: Option<nat>)
    requires from <= |s|
    ensures r.Some? ==> from <= r.value && BreakAt(s, r.value)
    ensures r.Some? ==> forall j :: from <= j < r.value ==> !BreakAt(s, j)
    ensures r.None? ==> forall j :: from <= j ==> !BreakAt(s, j)
    decreases |s| - from
  {
    if BreakAt(s, from) then Some(from)
    else if from + 1 >= |s| then None
    else FindBreak(s, from + 1)
  }

  /** No two line breaks in a row anywhere in `p`. */
  ghost predicate Unbroken(p: string) {
    forall j :: !BreakAt(p, j)
  }

  /** The pieces between runs of two or more line breaks; no piece holds two line breaks in a row. */
  function Paragraphs(s: string): (ps: seq<string>)
    ensures |ps| >= 1
    ensures forall k :: 0 <= k < |ps| ==> Unbroken(ps[k])
    ensures FindBreak(s, 0).None? ==> ps == [s]
    ensures FindBreak(s, 0).Some? ==> |ps| >= 2 && ps[0] == s[..FindBreak(s, 0).value]
    decreases |s|
  {
    match FindBreak(s, 0)
    case None => [s]
    case Some(i) =>
      var n := RunOf(s[i..], Markdown.IsNewline);
      assert s[i..][0] == '\n';
      UnbrokenBefore(s, i);
      [s[..i]] + Paragraphs(s[i + n..])
  }

  /** The text before the first break holds none. */
  lemma UnbrokenBefore(s: string, i: nat)
    requires i <= |s| && forall j :: 0 <= j < i ==> !BreakAt(s, j)
    ensures Unbroken(s[..i])
  {
    forall j | BreakAt(s[..i], j) ensures false { assert BreakAt(s, j); }
  }

  /** With no three line breaks in a row, splitting into paragraphs and joining them with a blank line gives the text back. */
  lemma {:induction false} ParagraphsRejoin(s: string)
    requires Markdown.NoTripleNewline(s)
    ensures Join(Paragraphs(s), "\n\n") == s
    decreases |s|
  {
    match FindBreak(s, 0)
    case None =>
    case Some(i) =>
      var rest := s[i + 2..];
      ParagraphsAtBreak(s, i);
      NoTripleNewlineAfter(s, i + 2);
      ParagraphsRejoin(rest);
      JoinCons(s[..i], Paragraphs(rest), "\n\n");
      SplitAtBreak(s, i);
  }

  /** A break with no third line break after it is two characters long, so the rest starts two characters on. */
  lemma ParagraphsAtBreak(s: string, i: nat)
    requires Markdown.NoTripleNewline(s) && FindBreak(s, 0) == Some(i)
    ensures i + 2 <= |s| && Paragraphs(s) == [s[..i]] + Paragraphs(s[i + 2..])
  {
    BreakRunIsTwo(s, i);
    assert Paragraphs(s) == [s[..i]] + Paragraphs(s[i + RunOf(s[i..], Markdown.IsNewline)..]);
  }

  /** Without a third line break, the run of line breaks at a break is exactly two long. */
  lemma BreakRunIsTwo(s: string, i: nat)
    requires Markdown.NoTripleNewline(s) && BreakAt(s, i)
    ensures RunOf(s[i..], Markdown.IsNewline) == 2
  {
    var t := s[i..];
    assert t[0] == '\n' && t[1] == '\n';
    if 2 < |t| {
      assert t[2] == s[i + 2];
      assert !(s[i] == '\n' && s[i + 1] == '\n' && s[i + 2] == '\n');
    }
    RunOfExact(t, Markdown.IsNewline, 2);
  }

  /** A suffix of a text without three line breaks in a row has none either. */
  lemma NoTripleNewlineAfter(s: string, k: nat)
    requires k <= |s| && Markdown.NoTripleNewline(s)
    ensures Markdown.NoTripleNewline(s[k..])
  {
    var rest := s[k..];
    forall j | 0 <= j < |rest| - 2
      ensures !(rest[j] == '\n' && rest[j + 1] == '\n' && rest[j + 2] == '\n')
    {
      assert rest[j] == s[k + j] && rest[j + 1] == s[k + j + 1] && rest[j + 2] == s[k + j + 2];
    }
  }

  lemma SplitAtBreak(s: string, i: nat)
    requires BreakAt(s, i)
    ensures s == s[..i] + "\n\n" + s[i + 2..]
  {
    assert s[i..i + 2] == "\n\n";
    assert s == s[..i] + s[i..i + 2] + s[i + 2..];
  }

  // ---------------------------------------------------------------------
  // Citation links

  /** The length of the match of `\[[^\]]+\]\(([^)]+)\)` at the start of `s`, if it matches there. */
  function LinkLength(s: string): (n: Option<nat>)
    ensures n.Some? ==> 6 <= n.value <= |s| && s[0] == '[' && s[n.value - 1] == ')'
  {
    if s == [] || s[0] != '[' then None
    else
      var a := RunOf(s[1..], Markdown.NotCloseBracket);
      if a == 0 || a + 2 >= |s| || s[a + 2] != '(' then None
      else
        var b := RunOf(s[a + 3..], Markdown.NotCloseParen);
        if b == 0 || a + 3 + b >= |s| then None
        else
          assert s[a + 3..][b] == s[a + 3 + b];
          Some(a + 4 + b)
  }

  /**
   * `\[[^\]]+\]\(([^)]+)\)` matches at the start of `s` with a link text of
   * `a` characters and a target of `b` characters.
   */
  predicate LinkShape(s: string, a: nat, b: nat) {
    0 < a && 0 < b && a + 4 + b <= |s| && s[0] == '['
    && (forall j :: 1 <= j <= a ==> s[j] != ']') && s[a + 1] == ']' && s[a + 2] == '('
    && (forall j :: a + 3 <= j < a + 3 + b ==> s[j] != ')') && s[a + 3 + b] == ')'
  }

  /** The link match at the start is found exactly when the pattern matches there, and has the matched length. */
  lemma LinkLengthExact(s: string)
    ensures LinkLength(s).Some? ==> exists a: nat, b: nat :: LinkShape(s, a, b) && LinkLength(s).value == a + 4 + b
    ensures LinkLength(s).None? ==> forall a: nat, b: nat :: !LinkShape(s, a, b)
  {
    if LinkLength(s).Some? {
      var a := RunOf(s[1..], Markdown.NotCloseBracket);
      var b := RunOf(s[a + 3..], Markdown.NotCloseParen);
      assert forall j :: 1 <= j <= a ==> s[j] == s[1..][j - 1];
      assert forall j :: a + 3 <= j < a + 3 + b ==> s[j] == s[a + 3..][j - a - 3];
      assert s[a + 1] == s[1..][a];
      assert s[a + 3 + b] == s[a + 3..][b];
      assert LinkShape(s, a, b);
    } else {
      forall a, b | LinkShape(s, a, b) ensures false {
        LinkShapeRuns(s, a, b);
      }
    }
  }

  /** A match pins both runs down: the text runs to the first `]`, the target to the first `)` after it. */
  lemma LinkShapeRuns(s: string, a: nat, b: nat)
    requires LinkShape(s, a, b)
    ensures RunOf(s[1..], Markdown.NotCloseBracket) == a && RunOf(s[a + 3..], Markdown.NotCloseParen) == b
  {
    assert forall j :: 0 <= j < a ==> s[1..][j] == s[j + 1];
    assert s[1..][a] == s[a + 1];
    RunOfExact(s[1..], Markdown.NotCloseBracket, a);
    var target := s[a + 3..];
    assert forall j :: 0 <= j < b ==> target[j] == s[a + 3 + j];
    assert target[b] == s[a + 3 + b];
    RunOfExact(target, Markdown.NotCloseParen, b);
  }

  /** The global match: the links of `p`, left to right, each search resuming after the previous link. */
  function Links(p: string): (r: seq<string>)
    ensures forall k :: 0 <= k < |r| ==> 6 <= |r[k]| && r[k][0] == '[' && r[k][|r[k]| - 1] == ')'
    decreases |p|
  {
    if p == [] then []
    else match LinkLength(p)
      case Some(n) => [p[..n]] + Links(p[n..])
      case None => Links(p[1..])
  }

  /** `link.match(/\([^)]+\)/)` without its parentheses: the text of the first parenthesised group. */
  function FirstParenthesised(s: string): (r: Option<string>)
    ensures r.Some? ==> r.value != [] && ')' !in r.value
    decreases |s|
  {
    if s == [] then None
    else if s[0] == '(' then
      var b := RunOf(s[1..], Markdown.NotCloseParen);
      if b > 0 && 1 + b < |s| then Some(s[1..1 + b]) else FirstParenthesised(s[1..])
    else FirstParenthesised(s[1..])
  }

  /** `\([^)]+\)` matches at `i`: an opening parenthesis, at least one character other than `)`, then `)`. */
  predicate GroupAt(s: string, i: nat) {
    i < |s| && s[i] == '('
    && 0 < RunOf(s[i + 1..], Markdown.NotCloseParen) && i + 1 + RunOf(s[i + 1..], Markdown.NotCloseParen) < |s|
  }

  /** The text inside the group at `i`. */
  function GroupText(s: string, i: nat): string
    requires GroupAt(s, i)
  {
    s[i + 1..i + 1 + RunOf(s[i + 1..], Markdown.NotCloseParen)]
  }

  /** The lookup reads the leftmost parenthesised group, and finds none exactly when there is none. */
  lemma {:induction false} FirstParenthesisedLeftmost(s: string)
    ensures FirstParenthesised(s).None? <==> forall i: nat :: i < |s| ==> !GroupAt(s, i)
    ensures FirstParenthesised(s).Some? ==>
      exists i: nat :: GroupAt(s, i) && FirstParenthesised(s).value == GroupText(s, i) && forall j: nat :: j < i ==> !GroupAt(s, j)
    decreases |s|
  {
    if s != [] && !GroupAt(s, 0) {
      var t := s[1..];
      FirstParenthesisedLeftmost(t);
      forall i: nat | i < |t| ensures GroupAt(t, i) == GroupAt(s, i + 1) {
        GroupAtShift(s, i);
      }
      if FirstParenthesised(t).Some? {
        var i: nat :| GroupAt(t, i) && FirstParenthesised(t).value == GroupText(t, i) && forall j: nat :: j < i ==> !GroupAt(t, j);
        GroupAtShift(s, i);
        forall j: nat | j < i + 1 ensures !GroupAt(s, j) {
          if j > 0 { assert !GroupAt(t, j - 1); }
        }
      } else {
        forall i: nat | i < |s| ensures !GroupAt(s, i) {
          if i > 0 { assert !GroupAt(t, i - 1); }
        }
      }
    }
  }

  /** Dropping the first character shifts every group one place to the left. */
  lemma GroupAtShift(s: string, i: nat)
    requires i < |s| - 1
    ensures GroupAt(s[1..], i) == GroupAt(s, i + 1)
    ensures GroupAt(s, i + 1) ==> GroupText(s[1..], i) == GroupText(s, i + 1)
  {
    assert s[1..][i + 1..] == s[i + 2..];
  }

  /** A well-formed link whose text has no parenthesis: it is found whole, and its target is what is looked up. */
  lemma LinkTarget(text: string, target: string)
    requires text != [] && ']' !in text && '(' !in text
    requires target != [] && ')' !in target
    ensures var l := "[" + text + "](" + target + ")";
      Links(l) == [l] && FirstParenthesised(l) == Some(target)
  {
    LinkFoundWhole(text, target);
    LinkTargetFound(text, target);
  }

  lemma LinkFoundWhole(text: string, target: string)
    requires text != [] && ']' !in text
    requires target != [] && ')' !in target
    ensures var l := "[" + text + "](" + target + ")"; Links(l) == [l]
  {
    var l := "[" + text + "](" + target + ")";
    WholeLink(text, target);
    assert l[..|l|] == l && l[|l|..] == [];
    assert Links(l) == [l] + Links([]);
  }

  lemma LinkTargetFound(text: string, target: string)
    requires '(' !in text
    requires target != [] && ')' !in target
    ensures var l := "[" + text + "](" + target + ")"; FirstParenthesised(l) == Some(target)
  {
    var l := "[" + text + "](" + target + ")";
    var a := |text|;
    assert l[..a + 2] == "[" + text + "]";
    assert l[a + 3..a + 3 + |target|] == target;
    FirstParenFrom(l, a + 2, target);
  }

  /** A well-formed link is matched whole from its first character. */
  lemma WholeLink(text: string, target: string)
    requires text != [] && ']' !in text
    requires target != [] && ')' !in target
    ensures var l := "[" + text + "](" + target + ")"; LinkLength(l) == Some(|l|)
  {
    var l := "[" + text + "](" + target + ")";
    var a := |text|;
    assert l[1..] == text + "](" + target + ")";
    RunOfExact(l[1..], Markdown.NotCloseBracket, a);
    assert l[a + 3..] == target + ")";
    RunOfExact(l[a + 3..], Markdown.NotCloseParen, |target|);
  }

  /** The search for a parenthesised group skips a prefix without `(`. */
  lemma {:induction false} FirstParenFrom(s: string, k: nat, target: string)
    requires k + |target| + 1 < |s| && '(' !in s[..k] && s[k] == '('
    requires s[k + 1..k + 1 + |target|] == target && target != [] && ')' !in target
    requires s[k + 1 + |target|] == ')'
    ensures FirstParenthesised(s) == Some(target)
    decreases k
  {
    if k == 0 {
      assert s[1..][|target|] == ')';
      RunOfExact(s[1..], Markdown.NotCloseParen, |target|);
    } else {
      assert s[0] in s[..k];
      assert s[1..][..k - 1] == s[1..k];
      assert s[1..][k - 1 + 1..k - 1 + 1 + |target|] == target;
      FirstParenFrom(s[1..], k - 1, target);
    }
  }

  /** A parenthesis in the link text wins: the lookup uses it instead of the target. */
  lemma ParenthesisInTextWins()
    ensures FirstParenthesised("[a (b)](c)") == Some("b")
  {
    var s := "[a (b)](c)";
    assert s[4..5] == "b";
    FirstParenFrom(s, 3, "b");
  }

  // ---------------------------------------------------------------------
  // The per-type view (`getFilteredContent`)

  /** The content view: the answer as it is, or the paragraphs citing one source type highlighted. */
  datatype ViewMode = Integrated | PerplexityView | WebView | CustomView

  /** The source tag a view selects. */
  function ViewTag(m: ViewMode): string
    requires !m.Integrated?
  {
    match m
    case PerplexityView => PERPLEXITY
    case WebView => SERPER
    case CustomView => CUSTOM
  }

  /** The view's own name, which the highlight carries as its class. */
  function ViewName(m: ViewMode): string
    requires !m.Integrated?
  {
    match m
    case PerplexityView => "perplexity"
    case WebView => "web"
    case CustomView => "custom"
  }

  /** A link cites one of `urls`: its first parenthesised group is one of them. */
  predicate Cites(link: string, urls: seq<Option<string>>) {
    var t := FirstParenthesised(link);
    t.Some? && t in urls
  }

  /** Some link of the paragraph cites one of `urls`. */
  predicate CitesAny(p: string, urls: seq<Option<string>>) {
    exists k :: 0 <= k < |Links(p)| && Cites(Links(p)[k], urls)
  }

  const HIGHLIGHT_OPEN: string := "<div class=\"source-highlight "
  const HIGHLIGHT_CLOSE: string := "</div>"

  /** The highlight wrapper of a paragraph. */
  function Highlight(p: string, m: ViewMode): (r: string)
    requires !m.Integrated?
    ensures |r| == |HIGHLIGHT_OPEN + ViewName(m) + "\">"| + |p| + |HIGHLIGHT_CLOSE| > |p|
    ensures StartsWith(r, HIGHLIGHT_OPEN + ViewName(m) + "\">") && EndsWith(r, HIGHLIGHT_CLOSE)
    ensures r[|HIGHLIGHT_OPEN + ViewName(m) + "\">"|..|r| - |HIGHLIGHT_CLOSE|] == p
  {
    Framed(HIGHLIGHT_OPEN + ViewName(m) + "\">", p, HIGHLIGHT_CLOSE)
  }

  /** A paragraph is wrapped exactly when it cites one of `urls`; the others stay as they are. */
  function HighlightParagraphs(ps: seq<string>, urls: seq<Option<string>>, m: ViewMode): (r: seq<string>)
    requires !m.Integrated?
    ensures |r| == |ps|
    ensures forall k :: 0 <= k < |ps| ==> (r[k] != ps[k] <==> CitesAny(ps[k], urls))
    ensures forall k :: 0 <= k < |ps| ==> r[k] == ps[k] || r[k] == Highlight(ps[k], m)
  {
    seq(|ps|, k requires 0 <= k < |ps| => if CitesAny(ps[k], urls) then Highlight(ps[k], m) else ps[k])
  }

  const SOURCES_HEADER: string := "\n\nSOURCES USED:\n"

  /**
   * The integrated view is the answer itself. Any other view highlights the
   * paragraphs of the main content citing a source of its type, joins them
   * with a blank line and puts a non-empty sources section back under a
   * fresh header.
   */
  function FilteredContent(answer: string, rs: seq<SearchResult>, m: ViewMode): (r: string)
    ensures m.Integrated? ==> r == answer
    ensures !m.Integrated? ==>
      StartsWith(r, Join(HighlightParagraphs(Paragraphs(MainContent(answer)), UrlsOf(OfTag(rs, ViewTag(m))), m), "\n\n"))
    ensures !m.Integrated? && SourcesSection(answer).Some? && SourcesSection(answer).value != "" ==>
      EndsWith(r, SOURCES_HEADER + SourcesSection(answer).value)
    ensures !m.Integrated? && SourcesSection(answer).Some? && SourcesSection(answer).value != "" ==>
      r == Join(HighlightParagraphs(Paragraphs(MainContent(answer)), UrlsOf(OfTag(rs, ViewTag(m))), m), "\n\n")
           + SOURCES_HEADER + SourcesSection(answer).value
    ensures !m.Integrated? && !(SourcesSection(answer).Some? && SourcesSection(answer).value != "") ==>
      r == Join(HighlightParagraphs(Paragraphs(MainContent(answer)), UrlsOf(OfTag(rs, ViewTag(m))), m), "\n\n")
  {
    if m.Integrated? then answer
    else
      var urls := UrlsOf(OfTag(rs, ViewTag(m)));
      var body := Join(HighlightParagraphs(Paragraphs(MainContent(answer)), urls, m), "\n\n");
      var section := match SourcesSection(answer) case Some(x) => x case None => "";
      if section != "" then
        Affixes(body, SOURCES_HEADER + section);
        ConcatAssoc(body, SOURCES_HEADER, section);
        body + SOURCES_HEADER + section
      else body
  }

  /**
   * When no source of the view's type has a URL, nothing is highlighted: an
   * answer without a sources marker and without three line breaks in a row
   * comes back unchanged.
   */
  lemma NothingCitedUnchanged(answer: string, rs: seq<SearchResult>, m: ViewMode)
    requires !m.Integrated?
    requires forall k :: 0 <= k < |rs| && rs[k].source == ViewTag(m) ==> rs[k].url.None?
    requires forall j :: 0 <= j ==> !MarkerAt(answer, j)
    requires Markdown.NoTripleNewline(answer)
    ensures FilteredContent(answer, rs, m) == answer
  {
    var urls := UrlsOf(OfTag(rs, ViewTag(m)));
    forall u | u in urls ensures u.None? {
      var k :| 0 <= k < |urls| && urls[k] == u;
      assert OfTag(rs, ViewTag(m))[k] in rs;
    }
    assert MainContent(answer) == answer;
    var ps := Paragraphs(answer);
    var hs := HighlightParagraphs(ps, urls, m);
    assert hs == ps;
    ParagraphsRejoin(answer);
  }

  // ---------------------------------------------------------------------
  // AI-search insights and the enhanced answer

  /** The line of `s` from `i` up to the next line break or the end. */
  function LineAt(s: string, i: nat): (r: string)
    requires i <= |s|
    ensures i + |r| <= |s| && r == s[i..i + |r|] && '\n' !in r
    ensures i + |r| == |s| || s[i + |r|] == '\n'
  {
    var n := RunOf(s[i..], Markdown.NotNewline);
    var r := s[i..i + n];
    assert '\n' !in r by {
      forall k | 0 <= k < n ensures r[k] != '\n' {
        assert r[k] == s[i..][k] && Markdown.NotNewline(s[i..][k]);
      }
    }
    r
  }

  /** `perplexity` occurs in `l`, ignoring case. */
  predicate MentionsPerplexity(l: string) {
    FindFromIgnoreCase(l, PERPLEXITY, 0).Some?
  }

  /**
   * A heading mentioning Perplexity starts at `i`, as the effect's
   * `(?:^|\n)#+\s*.*perplexity.*(?:\n|$)` finds one: at the start of a
   * line, hashes, whitespace (which may run over line breaks), then a line
   * that mentions it.
   */
  predicate LooseHeadingAt(s: string, i: int) {
    0 <= i < |s| && (i == 0 || s[i - 1] == '\n')
    && var h := RunOf(s[i..], Markdown.IsHash);
    h > 0 && MentionsPerplexity(LineAt(s, i + h + RunOf(s[i + h..], IsSpace)))
  }

  /** The stricter `^#+\s+.*perplexity.*$` of `getEnhancedAnswer`: at least one whitespace after the hashes. */
  predicate StrictHeadingAt(s: string, i: int) {
    LooseHeadingAt(s, i)
    && var h := RunOf(s[i..], Markdown.IsHash);
    i + h < |s| && IsSpace(s[i + h])
  }

  predicate HasPerplexitySection(s: string) {
    exists i :: 0 <= i < |s| && LooseHeadingAt(s, i)
  }

  predicate HasPerplexityHeading(s: string) {
    exists i :: 0 <= i < |s| && StrictHeadingAt(s, i)
  }

  const SNIPPET_LIMIT: nat := 200
  const MAX_INSIGHTS: nat := 3
  const INSIGHTS_TITLE: string := "Key Insights from Perplexity AI"
  const INSIGHTS_LEAD: string := "The following information was found by Perplexity AI search:\n\n"
  const INSIGHTS_INTRO: string := "\n\n" + INSIGHTS_LEAD
  const INSIGHTS_HEADER: string := "## " + INSIGHTS_TITLE + INSIGHTS_INTRO

  /** A snippet over two hundred characters is cut there and marked with an ellipsis. */
  function ShortSnippet(s: string): (r: string)
    ensures |r| <= SNIPPET_LIMIT + 3
    ensures |s| <= SNIPPET_LIMIT ==> r == s
    ensures |s| > SNIPPET_LIMIT ==> StartsWith(r, s[..SNIPPET_LIMIT]) && EndsWith(r, "...")
  {
    if |s| > SNIPPET_LIMIT then s[..SNIPPET_LIMIT] + "..." else s
  }

  /** The used AI-search sources, in their order. */
  function UsedPerplexity(rs: seq<SearchResult>): (r: seq<SearchResult>)
    ensures forall x :: x in r <==> x in rs && x.source == PERPLEXITY && IsUsed(x)
  {
    UsedOnly(OfTag(rs, PERPLEXITY))
  }

  /** The used AI-search sources of a concatenation are those of each part, in order and with their repeats. */
  lemma UsedPerplexityConcat(a: seq<SearchResult>, b: seq<SearchResult>)
    ensures UsedPerplexity(a + b) == UsedPerplexity(a) + UsedPerplexity(b)
  {
    OfTagConcat(a, b, PERPLEXITY);
    UsedOnlyConcat(OfTag(a, PERPLEXITY), OfTag(b, PERPLEXITY));
  }

  /**
   * The bullet for the source at `index`: its short snippet and a link
   * numbered `index + 1` to its URL; nothing for a source without a snippet.
   */
  function Bullet(src: SearchResult, index: nat): (r: string)
    ensures r == [] <==> !Truthy(src.snippet)
    ensures r != [] ==> StartsWith(r, "- " + ShortSnippet(src.snippet.value) + " [[" + NatToString(index + 1) + "] ")
    ensures r != [] ==> EndsWith(r, ")\n\n")
    ensures r != [] ==>
      r == "- " + ShortSnippet(src.snippet.value) + " [[" + NatToString(index + 1) + "] " + (if Truthy(src.title) then src.title.value else "Source") + "](" + (if Truthy(src.url) then src.url.value else "#") + ")\n\n"
  {
    if Truthy(src.snippet) then
      var head := "- " + ShortSnippet(src.snippet.value) + " [[" + NatToString(index + 1) + "] ";
      var r := head + OrElse(src.title, "Source") + "](" + OrElse(src.url, "#") + ")\n\n";
      assert r[..|head|] == head;
      r
    else ""
  }

  /** The bullets of the sources in order, each numbered by its position. */
  function Bullets(top: seq<SearchResult>): (r: seq<string>)
    ensures |r| == |top| && forall j :: 0 <= j < |top| ==> r[j] == Bullet(top[j], j)
  {
    seq(|top|, j requires 0 <= j < |top| => Bullet(top[j], j))
  }

  /** The strings one after the other. */
  function Concat(xs: seq<string>): string {
    if xs == [] then "" else Concat(xs[..|xs| - 1]) + xs[|xs| - 1]
  }

  /**
   * The insights block: when some AI-search source is used and the answer
   * has no heading mentioning Perplexity, the header and the bullets of the
   * first three such sources; otherwise nothing.
   */
  function Insights(answer: string, rs: seq<SearchResult>): (r: string)
    ensures r != [] <==> UsedPerplexity(rs) != [] && !HasPerplexitySection(answer)
    ensures r != [] ==> StartsWith(r, INSIGHTS_HEADER)
  {
    var ps := UsedPerplexity(rs);
    if |ps| > 0 && !HasPerplexitySection(answer) then
      var r := INSIGHTS_HEADER + Concat(Bullets(Seqs.Take(ps, MAX_INSIGHTS)));
      assert r[..|INSIGHTS_HEADER|] == INSIGHTS_HEADER;
      r
    else ""
  }

  /**
   * The answer shown: the insights before the answer in the integrated view
   * when there are any and the answer has no strict Perplexity heading;
   * otherwise the view's content.
   */
  function EnhancedAnswer(answer: string, rs: seq<SearchResult>, m: ViewMode, insights: string): (r: string)
    ensures m.Integrated? && insights == [] ==> r == answer
    ensures m.Integrated? && insights != [] ==> r == (if HasPerplexityHeading(answer) then answer else insights + answer)
    ensures !m.Integrated? ==> r == FilteredContent(answer, rs, m)
  {
    if insights != [] && m.Integrated? && !HasPerplexityHeading(answer) then insights + answer
    else FilteredContent(answer, rs, m)
  }

  /** Insights computed for an answer are always shown before it in the integrated view. */
  lemma InsightsPrepended(answer: string, rs: seq<SearchResult>)
    requires Insights(answer, rs) != []
    ensures EnhancedAnswer(answer, rs, Integrated, Insights(answer, rs)) == Insights(answer, rs) + answer
  {
    assert forall i :: StrictHeadingAt(answer, i) ==> LooseHeadingAt(answer, i);
  }

  /** The insights header is itself a Perplexity heading, so text carrying it gets no second block. */
  lemma InsightsNotRepeated(answer: string, rs: seq<SearchResult>)
    requires Insights(answer, rs) != []
    ensures HasPerplexityHeading(Insights(answer, rs) + answer)
    ensures Insights(Insights(answer, rs) + answer, rs) == []
  {
    var top := Seqs.Take(UsedPerplexity(rs), MAX_INSIGHTS);
    var rest := Concat(Bullets(top));
    ConcatAssoc(INSIGHTS_HEADER, rest, answer);
    HeaderIsHeading(rest + answer);
    assert StrictHeadingAt(Insights(answer, rs) + answer, 0);
  }

  /** A text that starts with the insights header has a strict Perplexity heading at its start. */
  lemma HeaderIsHeading(rest: string)
    ensures StrictHeadingAt(INSIGHTS_HEADER + rest, 0)
  {
    var tail := INSIGHTS_INTRO + rest;
    var u := INSIGHTS_TITLE + tail;
    ConcatAssoc("## " + INSIGHTS_TITLE, INSIGHTS_INTRO, rest);
    ConcatAssoc("## ", INSIGHTS_TITLE, tail);
    var s := "## " + u;
    assert INSIGHTS_HEADER + rest == s;
    assert u[0] == 'K';
    LevelTwo(u);
    assert tail[0] == '\n';
    TitleLine(tail);
    assert LineAt(s, 3) == INSIGHTS_TITLE;
    TitleMentions();
  }

  /** Two hashes and a space before a word: the hash run is two long and the gap one. */
  lemma LevelTwo(u: string)
    requires u != [] && u[0] != '#' && !IsSpace(u[0])
    ensures var s := "## " + u;
      RunOf(s, Markdown.IsHash) == 2 && RunOf(s[2..], IsSpace) == 1 && s[3..] == u
  {
    var s := "## " + u;
    assert s[2] == ' ' && s[3] == u[0];
    RunOfExact(s, Markdown.IsHash, 2);
    assert s[2..][0] == ' ' && s[2..][1] == u[0];
    RunOfExact(s[2..], IsSpace, 1);
  }

  /** The title runs to the line break that follows it. */
  lemma TitleLine(tail: string)
    requires tail != [] && tail[0] == '\n'
    ensures RunOf(INSIGHTS_TITLE + tail, Markdown.NotNewline) == |INSIGHTS_TITLE|
  {
    var t := INSIGHTS_TITLE + tail;
    assert |INSIGHTS_TITLE| == 31;
    assert t[31] == '\n';
    RunOfExact(t, Markdown.NotNewline, 31);
  }

  /** The title mentions Perplexity. */
  lemma TitleMentions()
    ensures MentionsPerplexity(INSIGHTS_TITLE)
  {
    assert INSIGHTS_TITLE[18..28] == "Perplexity";
    assert Lower(INSIGHTS_TITLE[18..28]) == PERPLEXITY;
    assert OccursAtIgnoreCase(INSIGHTS_TITLE, PERPLEXITY, 18);
  }

  // ---------------------------------------------------------------------
  // The panel's state

  /** The view a source card's button opens together with its type filter. */
  function ViewFor(f: TypeFilter): (m: ViewMode)
    requires !f.AllTypes?
    ensures !m.Integrated? && ViewTag(m) == FilterTag(f)
  {
    match f
    case PerplexityOnly => PerplexityView
    case SerperOnly => WebView
    case CustomOnly => CustomView
  }

  /** The insights header followed by the bullets of `top`, appended one source at a time. */
  method BuildInsights(top: seq<SearchResult>) returns (text: string)
    ensures text == INSIGHTS_HEADER + Concat(Bullets(top))
  {
    text := INSIGHTS_HEADER;
    var j := 0;
    while j < |top|
      invariant 0 <= j <= |top|
      invariant text == INSIGHTS_HEADER + Concat(Bullets(top)[..j])
    {
      var b := Bullets(top);
      assert b[..j + 1][..j] == b[..j];
      ConcatAssoc(INSIGHTS_HEADER, Concat(b[..j]), b[j]);
      if Truthy(top[j].snippet) {
        text := text + Bullet(top[j], j);
      }
      j := j + 1;
    }
    assert Bullets(top)[..|top|] == Bullets(top);
  }

  /** When insights are due, they are the header and the bullets of the first three used AI-search sources. */
  lemma InsightsWhenDue(answer: string, rs: seq<SearchResult>)
    requires UsedPerplexity(rs) != [] && !HasPerplexitySection(answer)
    ensures Insights(answer, rs) == INSIGHTS_HEADER + Concat(Bullets(Seqs.Take(UsedPerplexity(rs), MAX_INSIGHTS)))
    ensures var ps := UsedPerplexity(rs); var bs := Bullets(Seqs.Take(ps, MAX_INSIGHTS));
      |bs| == (if |ps| < MAX_INSIGHTS then |ps| else MAX_INSIGHTS)
      && forall j :: 0 <= j < |bs| ==> bs[j] == Bullet(ps[j], j)
  {
  }

  /** The results panel for one research result: its toggles and the insights block its effect computes. */
  class Panel {
    const result: ResearchResult
    var showAll: bool
    var typeFilter: TypeFilter
    var viewMode: ViewMode
    var insights: string

    constructor(r: ResearchResult)
      ensures result == r && !showAll && typeFilter == AllTypes && viewMode == Integrated && insights == []
    {
      result := r;
      showAll := false;
      typeFilter := AllTypes;
      viewMode := Integrated;
      insights := [];
    }

    /** The sources listed below the answer. */
    function Listed(): seq<SearchResult>
      reads this
    {
      DisplaySources(BaseSources(result.sources, showAll), typeFilter)
    }

    /** The balance verdict of the header badge. */
    function Balance(): Verdict
      reads this
    {
      VerdictOf(CountsOf(BaseSources(result.sources, showAll)), AnyOfTag(result.sources, CUSTOM))
    }

    /** The text handed to the markdown renderer. */
    function Shown(): string
      reads this
    {
      EnhancedAnswer(result.answer, result.sources, viewMode, insights)
    }

    /** The "show all sources" toggle. */
    method ToggleShowAll()
      modifies this
      ensures showAll == !old(showAll)
      ensures typeFilter == old(typeFilter) && viewMode == old(viewMode) && insights == old(insights)
    {
      showAll := !showAll;
    }

    /** A type-filter tab. */
    method SelectTypeFilter(f: TypeFilter)
      modifies this
      ensures typeFilter == f
      ensures showAll == old(showAll) && viewMode == old(viewMode) && insights == old(insights)
    {
      typeFilter := f;
    }

    /** A content-view tab. */
    method SelectView(m: ViewMode)
      modifies this
      ensures viewMode == m
      ensures showAll == old(showAll) && typeFilter == old(typeFilter) && insights == old(insights)
    {
      viewMode := m;
    }

    /** A source-type card's button: the list and the answer both turn to that type. */
    method Focus(f: TypeFilter)
      requires !f.AllTypes?
      modifies this
      ensures typeFilter == f && viewMode == ViewFor(f)
      ensures forall x :: x in Listed() <==> x in BaseSources(result.sources, showAll) && x.source == ViewTag(viewMode)
      ensures showAll == old(showAll) && insights == old(insights)
    {
      typeFilter := f;
      viewMode := ViewFor(f);
    }

    /**
     * The effect run when the answer or the sources change: nothing for an
     * empty answer; otherwise the insights block, built bullet by bullet.
     */
    method RefreshInsights()
      modifies this
      ensures result.answer == [] ==> insights == old(insights)
      ensures result.answer != [] ==> insights == Insights(result.answer, result.sources)
      ensures showAll == old(showAll) && typeFilter == old(typeFilter) && viewMode == old(viewMode)
    {
      if result.answer == [] {
        return;
      }
      var ps := UsedPerplexity(result.sources);
      if |ps| > 0 && !HasPerplexitySection(result.answer) {
        var text := BuildInsights(Seqs.Take(ps, MAX_INSIGHTS));
        InsightsWhenDue(result.answer, result.sources);
        insights := text;
      } else {
        insights := [];
      }
    }
  }
}
