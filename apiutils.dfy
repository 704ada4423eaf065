/**
 * Source helpers shared by the adapters (`src/lib/api/api-utils.ts`):
 * giving every source a title, rendering citations, finding URLs in text
 * and checking that a string parses as a URL.
 */
module ApiUtils {
  import opened Wrappers
  import opened Text
  import Url
  import opened Types
  import Seqs

  const UNTITLED: string := "Untitled Source"

  /** `word.charAt(0).toUpperCase() + word.slice(1)`. */
  function CapitalizeFirst(w: string): (r: string)
    ensures |r| == |w|
    ensures w != [] ==> r[0] == ToUpper(w[0]) && r[1..] == w[1..]
  {
    if w == [] then [] else [ToUpper(w[0])] + w[1..]
  }

  function CapitalizeAll(ws: seq<string>): (r: seq<string>)
    ensures |r| == |ws|
    ensures forall i :: 0 <= i < |ws| ==> r[i] == CapitalizeFirst(ws[i])
  {
    seq(|ws|, i requires 0 <= i < |ws| => CapitalizeFirst(ws[i]))
  }

  /** `s.split(' ').map(capitalizeFirst).join(' ')`. */
  function CapitalizeWords(s: string): string {
    Join(CapitalizeAll(Split(s, ' ')), " ")
  }

  /** `r` is `s` with the first letter of every space-separated word upper-cased. */
  predicate CapitalizedFrom(s: string, r: string) {
    |r| == |s| && forall i :: 0 <= i < |s| ==> r[i] == CapitalizedAt(s, i)
  }

  /** The character at `i` upper-cased when it starts a word, that is, comes first or after a space. */
  function CapitalizedAt(s: string, i: nat): char
    requires i < |s|
  {
    if i == 0 || s[i - 1] == ' ' then ToUpper(s[i]) else s[i]
  }

  lemma CapitalizeFirstPointwise(w: string)
    requires ' ' !in w
    ensures CapitalizedFrom(w, CapitalizeFirst(w))
  {
    if w != [] {
      var r := CapitalizeFirst(w);
      forall i | 0 < i < |w| ensures r[i] == CapitalizedAt(w, i) {
        assert r[i] == r[1..][i - 1];
        assert w[i - 1] in w;
      }
    }
  }

  lemma CapitalizedConcat(a: string, b: string, ra: string, rb: string)
    requires CapitalizedFrom(a, ra) && CapitalizedFrom(b, rb)
    ensures CapitalizedFrom(a + " " + b, ra + " " + rb)
  {
    var s := a + " " + b;
    var r := ra + " " + rb;
    forall i | 0 <= i < |s| ensures r[i] == CapitalizedAt(s, i) {
      if i < |a| {
        assert r[i] == ra[i] && s[i] == a[i];
        assert ra[i] == CapitalizedAt(a, i);
        if i > 0 { assert s[i - 1] == a[i - 1]; }
      } else if i == |a| {
        assert r[i] == ' ' && s[i] == ' ';
      } else {
        var j := i - |a| - 1;
        assert r[i] == rb[j] && s[i] == b[j];
        assert rb[j] == CapitalizedAt(b, j);
        if j == 0 { assert s[i - 1] == ' '; } else { assert s[i - 1] == b[j - 1]; }
      }
    }
  }

  lemma CapitalizeAllCons(w: string, ws: seq<string>)
    ensures CapitalizeAll([w] + ws) == [CapitalizeFirst(w)] + CapitalizeAll(ws)
  {
  }

  /** Capitalising word by word is the same as upper-casing each character that starts a word. */
  lemma {:induction false} CapitalizeWordsPointwise(s: string)
    ensures CapitalizedFrom(s, CapitalizeWords(s))
    decreases |s|
  {
    match IndexOfChar(s, ' ')
    case None =>
      assert CapitalizeWords(s) == CapitalizeFirst(s);
      CapitalizeFirstPointwise(s);
    case Some(k) =>
      var rest := s[k + 1..];
      CapitalizeWordsAtSpace(s, k);
      CapitalizeWordsPointwise(rest);
      CapitalizeFirstPointwise(s[..k]);
      CapitalizedConcat(s[..k], rest, CapitalizeFirst(s[..k]), CapitalizeWords(rest));
  }

  /** At the first space, the first word is capitalised and the rest is capitalised word by word. */
  lemma CapitalizeWordsAtSpace(s: string, k: nat)
    requires IndexOfChar(s, ' ') == Some(k)
    ensures k < |s| && s == s[..k] + " " + s[k + 1..]
    ensures CapitalizeWords(s) == CapitalizeFirst(s[..k]) + " " + CapitalizeWords(s[k + 1..])
  {
    SplitAt(s, ' ', k);
    var tail := Split(s[k + 1..], ' ');
    CapitalizeAllCons(s[..k], tail);
    JoinCons(CapitalizeFirst(s[..k]), CapitalizeAll(tail), " ");
  }

  /** `replace(/[-_]/g, ' ')`: no `-` or `_` is left, each having become a space, and every other character stays in place. */
  function DashesToSpaces(s: string): (r: string)
    ensures |r| == |s| && '-' !in r && '_' !in r
    ensures forall i :: 0 <= i < |s| && s[i] != '-' && s[i] != '_' ==> r[i] == s[i]
    ensures forall i :: 0 <= i < |s| && (s[i] == '-' || s[i] == '_') ==> r[i] == ' '
  {
    seq(|s|, i requires 0 <= i < |s| => if s[i] == '-' || s[i] == '_' then ' ' else s[i])
  }

  /** `replace(/\.\w+$/, '')`: drops a final `.` followed only by word characters. */
  function StripExtension(s: string): (r: string)
    ensures |r| <= |s| && r == s[..|r|]
    ensures r != s <==> exists k :: 0 <= k < |s| - 1 && s[k] == '.' && (forall j :: k < j < |s| ==> IsWordChar(s[j])) && r == s[..k]
  {
    match FindLast(s, ".")
    case None =>
      assert forall k :: 0 <= k < |s| && s[k] == '.' ==> OccursAt(s, ".", k) by {
        forall k | 0 <= k < |s| ensures s[k] == '.' <==> OccursAt(s, ".", k) { DotAt(s, k); }
      }
      s
    case Some(k) =>
      DotAt(s, k);
      assert forall j :: k < j < |s| ==> s[j] != '.' by {
        forall j | k < j < |s| ensures s[j] == '.' <==> OccursAt(s, ".", j) { DotAt(s, j); }
      }
      if k + 1 < |s| && forall j :: k < j < |s| ==> IsWordChar(s[j]) then s[..k]
      else s
  }

  /** The pattern `.` occurs exactly where the character `.` is. */
  lemma DotAt(s: string, j: nat)
    requires j < |s|
    ensures s[j] == '.' <==> OccursAt(s, ".", j)
  {
    assert s[j..j + 1] == [s[j]];
  }

  /** `pathname.split('/').filter(Boolean)`: every non-empty part is kept as often as it occurs, and no empty one. */
  function NonEmptyParts(parts: seq<string>): (r: seq<string>)
    ensures forall i :: 0 <= i < |r| ==> r[i] != []
    ensures forall x :: x != [] ==> multiset(r)[x] == multiset(parts)[x]
    ensures (forall i :: 0 <= i < |parts| ==> parts[i] == []) <==> r == []
  {
    if parts == [] then []
    else
      var init := parts[..|parts| - 1];
      var x := parts[|parts| - 1];
      assert parts == init + [x];
      var rest := NonEmptyParts(init);
      if x == [] then rest else rest + [x]
  }

  /** The filter keeps the order of the parts: it distributes over concatenation. */
  lemma {:induction false} NonEmptyPartsConcat(a: seq<string>, b: seq<string>)
    ensures NonEmptyParts(a + b) == NonEmptyParts(a) + NonEmptyParts(b)
    decreases |b|
  {
    if b == [] {
      assert a + b == a;
    } else {
      var p := b[..|b| - 1];
      assert a + b == (a + p) + [b[|b| - 1]];
      assert (a + b)[..|a + b| - 1] == a + p;
      NonEmptyPartsConcat(a, p);
    }
  }

  /** The last non-empty path segment with dashes as spaces and a final extension dropped; empty when there is none. */
  function PathSegment(pathname: string): string {
    var parts := NonEmptyParts(Split(pathname, '/'));
    if parts == [] then [] else StripExtension(DashesToSpaces(parts[|parts| - 1]))
  }

  /** The host name without a leading `www.` and without its last label, with dashes as spaces. */
  function HostWords(hostname: string): string {
    var host := if StartsWith(hostname, "www.") then hostname[4..] else hostname;
    var labels := Split(host, '.');
    DashesToSpaces(Join(labels[..|labels| - 1], "."))
  }

  /**
   * The title `ensureSourceHasTitle` derives from a parsed URL: the last path
   * segment with each word capitalised, else the host words capitalised,
   * else "Untitled Source".
   */
  function TitleFromUrl(u: Url.Url): (r: string)
    ensures r != []
    ensures PathSegment(u.pathname) != [] ==> CapitalizedFrom(PathSegment(u.pathname), r)
    ensures PathSegment(u.pathname) == [] && HostWords(u.hostname) != [] ==> CapitalizedFrom(HostWords(u.hostname), r)
    ensures PathSegment(u.pathname) == [] && HostWords(u.hostname) == [] ==> r == UNTITLED
  {
    var segment := PathSegment(u.pathname);
    if segment != [] then
      CapitalizeWordsPointwise(segment);
      CapitalizeWords(segment)
    else
      var words := HostWords(u.hostname);
      CapitalizeWordsPointwise(words);
      var domainTitle := CapitalizeWords(words);
      if domainTitle == [] then UNTITLED else domainTitle
  }

  /** The title used when the URL is missing or does not parse. */
  function FallbackTitle(snippet: Option<string>): (r: string)
    ensures r != []
    ensures Truthy(snippet) && |snippet.value| >= 30 ==> r == "Source: " + snippet.value[..30] + "..."
    ensures Truthy(snippet) && |snippet.value| < 30 ==> r == "Source: " + snippet.value + "..."
    ensures !Truthy(snippet) ==> r == UNTITLED
  {
    if Truthy(snippet) then "Source: " + Seqs.Take(snippet.value, 30) + "..." else UNTITLED
  }

  /** The source has a title with something other than whitespace in it. */
  predicate HasTitle(s: SearchResult) {
    Truthy(s.title) && Trim(s.title.value) != []
  }

  /** `ensureSourceHasTitle`. */
  function EnsureSourceHasTitle(s: SearchResult): (r: SearchResult)
    ensures Truthy(r.title)
    ensures r == s.(title := r.title)
    ensures HasTitle(s) ==> r == s
    ensures !HasTitle(s) && Truthy(s.url) && Url.Parse(s.url.value).Some? ==> r.title == Some(TitleFromUrl(Url.Parse(s.url.value).value))
    ensures !HasTitle(s) && !(Truthy(s.url) && Url.Parse(s.url.value).Some?) ==> r.title == Some(FallbackTitle(s.snippet))
  {
    if HasTitle(s) then s
    else if Truthy(s.url) && Url.Parse(s.url.value).Some? then s.(title := Some(TitleFromUrl(Url.Parse(s.url.value).value)))
    else s.(title := Some(FallbackTitle(s.snippet)))
  }

  /** A derived title is never derived again differently: the function is idempotent. */
  lemma EnsureSourceHasTitleIdempotent(s: SearchResult)
    ensures EnsureSourceHasTitle(EnsureSourceHasTitle(s)) == EnsureSourceHasTitle(s)
  {
    var r := EnsureSourceHasTitle(s);
    if !HasTitle(s) && !HasTitle(r) {
      assert r.url == s.url && r.snippet == s.snippet;
    }
  }

  /** `formatSourcesWithTitles`. */
  function FormatSourcesWithTitles(sources: seq<SearchResult>): (r: seq<SearchResult>)
    ensures |r| == |sources|
    ensures forall i :: 0 <= i < |r| ==> Truthy(r[i].title) && r[i] == sources[i].(title := r[i].title)
    ensures forall i :: 0 <= i < |r| ==> HasTitle(sources[i]) ==> r[i] == sources[i]
  {
    seq(|sources|, i requires 0 <= i < |sources| => EnsureSourceHasTitle(sources[i]))
  }

  /** `formatCitation(source, index)`: `[n] "title" (url)`, without the index or the URL when absent. */
  function FormatCitation(s: SearchResult, index: Option<nat>): (r: string)
    ensures var quoted := "\"" + OrElse(s.title, UNTITLED) + "\"";
      var numbered := if index.Some? then "[" + NatToString(index.value + 1) + "] " else "";
      r == numbered + quoted + if Truthy(s.url) then " (" + s.url.value + ")" else ""
    ensures Truthy(s.url) ==> EndsWith(r, " (" + s.url.value + ")")
    ensures !Truthy(s.url) ==> EndsWith(r, "\"")
    ensures index.Some? ==> StartsWith(r, "[" + NatToString(index.value + 1) + "] " + "\"")
    ensures index.None? ==> StartsWith(r, "\"" + OrElse(s.title, UNTITLED) + "\"")
  {
    var numbered := if index.Some? then "[" + NatToString(index.value + 1) + "] " else "";
    var tail := if Truthy(s.url) then " (" + s.url.value + ")" else "";
    CitationFrame(numbered, OrElse(s.title, UNTITLED), tail);
    numbered + ("\"" + OrElse(s.title, UNTITLED) + "\"") + tail
  }

  /** The affixes of `numbered "title" tail`. */
  lemma CitationFrame(numbered: string, title: string, tail: string)
    ensures var r := numbered + ("\"" + title + "\"") + tail;
      StartsWith(r, numbered + "\"") && EndsWith(r, tail) && (tail == [] ==> EndsWith(r, "\""))
      && (numbered == [] ==> StartsWith(r, "\"" + title + "\""))
  {
    var quoted := "\"" + title + "\"";
    Seqs.Assoc(numbered, quoted, tail);
    Seqs.Assoc("\"", title + "\"", tail);
    Seqs.Assoc("\"", title, "\"");
    Seqs.Assoc(numbered, "\"", title + "\"" + tail);
    Affixes(numbered + "\"", title + "\"" + tail);
    Affixes(numbered + quoted, tail);
    if tail == [] {
      assert numbered + quoted + tail == numbered + quoted;
      Affixes(numbered + "\"" + title, "\"");
      Seqs.Assoc(numbered + "\"", title, "\"");
    }
    if numbered == [] {
      assert numbered + quoted == quoted;
      Affixes(quoted, tail);
    }
  }

  /** The number of leading characters for which `stop` does not hold. */
  function RunLength(s: string, stop: char -> bool): (n: nat)
    ensures n <= |s|
    ensures forall j :: 0 <= j < n ==> !stop(s[j])
    ensures n < |s| ==> stop(s[n])
  {
    if s == [] || stop(s[0]) then 0 else 1 + RunLength(s[1..], stop)
  }

  /** `stop` holds of the space and of no character of `https://`. */
  predicate StopsUrls(stop: char -> bool) {
    stop(' ') && !stop('h') && !stop('t') && !stop('p') && !stop('s') && !stop(':') && !stop('/')
  }

  /** A match of `https?:\/\/[^…]+`: `http://` or `https://` followed by at least one character, none a `stop` character. */
  predicate IsUrlToken(u: string, stop: char -> bool) {
    ((StartsWith(u, "https://") && |u| > 8) || (!StartsWith(u, "https://") && StartsWith(u, "http://") && |u| > 7))
    && forall j :: 0 <= j < |u| ==> !stop(u[j])
  }

  /** The length of the match of `https?:\/\/[^…]+` at the start of `s`, if one starts there. */
  function MatchLength(s: string, stop: char -> bool): (r: Option<nat>)
    requires StopsUrls(stop)
    ensures r.Some? ==> 0 < r.value <= |s| && IsUrlToken(s[..r.value], stop)
    ensures r.Some? ==> r.value == |s| || stop(s[r.value])
  {
    var n := if StartsWith(s, "https://") then 8 else if StartsWith(s, "http://") then 7 else 0;
    if n > 0 && RunLength(s[n..], stop) > 0 then
      var m := n + RunLength(s[n..], stop);
      TokenOfRun(s, n, m, stop);
      Some(m)
    else None
  }

  lemma TokenOfRun(s: string, n: nat, m: nat, stop: char -> bool)
    requires StopsUrls(stop)
    requires n == (if StartsWith(s, "https://") then 8 else if StartsWith(s, "http://") then 7 else 0)
    requires 0 < n < m <= |s| && m == n + RunLength(s[n..], stop)
    ensures IsUrlToken(s[..m], stop)
    ensures m == |s| || stop(s[m])
  {
    var u := s[..m];
    assert u[..n] == s[..n];
    forall j | 0 <= j < m ensures !stop(u[j]) {
      if j < n {
        assert u[j] == s[..n][j];
        assert s[..n] == "https://" || s[..n] == "http://";
        assert u[j] in s[..n];
      } else {
        assert u[j] == s[n..][j - n];
      }
    }
    if m < |s| {
      assert s[m] == s[n..][m - n];
    }
  }

  /** All matches of `https?:\/\/[^…]+` in `text`, from left to right, each running up to a `stop` character. */
  function MatchUrls(text: string, stop: char -> bool): (r: seq<string>)
    requires StopsUrls(stop)
    ensures forall k :: 0 <= k < |r| ==> IsUrlToken(r[k], stop)
  {
    if text == [] then []
    else
      match MatchLength(text, stop)
      case Some(n) => [text[..n]] + MatchUrls(text[n..], stop)
      case None => MatchUrls(text[1..], stop)
  }

  /** `extractUrls`: `text.match(/(https?:\/\/[^\s]+)/g) || []`, the matches from left to right. */
  function ExtractUrls(text: string): (r: seq<string>)
    ensures forall k :: 0 <= k < |r| ==> IsUrlToken(r[k], IsSpace)
  {
    MatchUrls(text, IsSpace)
  }

  /** A URL token followed by a space or nothing is matched whole. */
  lemma MatchLengthOfToken(u: string, rest: string)
    requires IsUrlToken(u, IsSpace)
    requires rest == [] || rest[0] == ' '
    ensures MatchLength(u + rest, IsSpace) == Some(|u|)
  {
    var s := u + rest;
    assert s[..7] == u[..7] && s[..8] == u[..8];
    var n := if StartsWith(s, "https://") then 8 else 7;
    assert forall j :: 0 <= j < |u| - n ==> s[n..][j] == u[n + j];
    assert |u| < |s| ==> s[n..][|u| - n] == ' ';
    assert RunLength(s[n..], IsSpace) == |u| - n;
  }

  /** No match starts at a space, so matching goes on after it. */
  lemma MatchUrlsSkipsSpace(rest: string)
    ensures MatchUrls(" " + rest, IsSpace) == MatchUrls(rest, IsSpace)
  {
    var s := " " + rest;
    assert s[0] == ' ';
    assert !StartsWith(s, "https://") && !StartsWith(s, "http://") by {
      assert |s| >= 7 ==> s[..7][0] == ' ';
      assert |s| >= 8 ==> s[..8][0] == ' ';
    }
    assert MatchLength(s, IsSpace) == None;
    assert s[1..] == rest;
  }

  /** A URL token followed by a space or nothing is taken whole, and matching goes on after it. */
  lemma MatchUrlsTakesToken(u: string, rest: string)
    requires IsUrlToken(u, IsSpace)
    requires rest == [] || rest[0] == ' '
    ensures MatchUrls(u + rest, IsSpace) == [u] + MatchUrls(rest, IsSpace)
  {
    var text := u + rest;
    MatchLengthOfToken(u, rest);
    assert text[..|u|] == u;
    assert text[|u|..] == rest;
  }

  /** A URL token and a space are matched as the token, and matching goes on after the space. */
  lemma ExtractUrlsAfterToken(u: string, rest: string)
    requires IsUrlToken(u, IsSpace)
    ensures ExtractUrls(u + " " + rest) == [u] + ExtractUrls(rest)
  {
    assert u + " " + rest == u + (" " + rest);
    MatchUrlsTakesToken(u, " " + rest);
    MatchUrlsSkipsSpace(rest);
  }

  /** Finding the URLs of space-separated URL tokens gives back exactly those tokens. */
  lemma {:induction false} ExtractUrlsOfJoined(urls: seq<string>)
    requires forall k :: 0 <= k < |urls| ==> IsUrlToken(urls[k], IsSpace)
    ensures ExtractUrls(Join(urls, " ")) == urls
  {
    if |urls| == 1 {
      MatchLengthOfToken(urls[0], []);
      assert urls[0] + [] == urls[0];
      assert urls[0][|urls[0]|..] == [];
      assert MatchUrls(urls[0], IsSpace) == [urls[0]] + MatchUrls([], IsSpace);
    } else if |urls| > 1 {
      ExtractUrlsAfterToken(urls[0], Join(urls[1..], " "));
      ExtractUrlsOfJoined(urls[1..]);
    }
  }

  /** `isValidUrl`: whether `new URL(s)` succeeds. */
  predicate IsValidUrl(s: string) {
    Url.Parses(s)
  }
}
