/**
 * String helpers with JavaScript's meaning: the `\s` class and `trim`,
 * `\w`, ASCII case mapping, literal search, `split` on one separator,
 * `join`, global literal `replace`, and decimal rendering of numbers.
 */
module Text {
  import opened Wrappers

  /** JavaScript's `\s` class, which is also the set `String.prototype.trim` removes. */
  predicate IsSpace(c: char) {
    c == ' ' || c == '\t' || c == '\n' || c == '\r' || c == '\U{000B}' || c == '\U{000C}'
    || c == '\U{00A0}' || c == '\U{FEFF}' || c == '\U{1680}' || ('\U{2000}' <= c <= '\U{200A}')
    || c == '\U{2028}' || c == '\U{2029}' || c == '\U{202F}' || c == '\U{205F}' || c == '\U{3000}'
  }

  /** JavaScript's `\w` class without the `u` flag: `[A-Za-z0-9_]`. */
  predicate IsWordChar(c: char) {
    'a' <= c <= 'z' || 'A' <= c <= 'Z' || '0' <= c <= '9' || c == '_'
  }

  predicate IsDigit(c: char) { '0' <= c <= '9' }
  predicate IsLowerAscii(c: char) { 'a' <= c <= 'z' }
  predicate IsUpperAscii(c: char) { 'A' <= c <= 'Z' }
  predicate IsAlphaAscii(c: char) { IsLowerAscii(c) || IsUpperAscii(c) }

  /** `toUpperCase` restricted to ASCII letters; every other character is kept. */
  function ToUpper(c: char): (u: char)
    ensures IsLowerAscii(c) ==> IsUpperAscii(u) && u as int == c as int - 32
    ensures !IsLowerAscii(c) ==> u == c
  {
    if IsLowerAscii(c) then (c as int - 32) as char else c
  }

  /** `toLowerCase` restricted to ASCII letters; every other character is kept. */
  function ToLower(c: char): (l: char)
    ensures IsUpperAscii(c) ==> IsLowerAscii(l) && l as int == c as int + 32
    ensures !IsUpperAscii(c) ==> l == c
  {
    if IsUpperAscii(c) then (c as int + 32) as char else c
  }

  function Lower(s: string): (r: string)
    ensures |r| == |s|
    ensures forall i :: 0 <= i < |s| ==> r[i] == ToLower(s[i])
  {
    seq(|s|, i requires 0 <= i < |s| => ToLower(s[i]))
  }

  /** Every character of `s` is whitespace (so `s.trim()` is empty). */
  predicate IsBlank(s: string) {
    forall i :: 0 <= i < |s| ==> IsSpace(s[i])
  }

  /** `trimStart`: drops the leading whitespace. */
  function TrimStart(s: string): (r: string)
    ensures |r| <= |s| && r == s[|s| - |r|..]
    ensures r != [] ==> !IsSpace(r[0])
    ensures IsBlank(s[..|s| - |r|])
  {
    if s != [] && IsSpace(s[0]) then
      var r := TrimStart(s[1..]);
      var k := |s| - |r|;
      assert s[1..][k - 1..] == s[k..];
      assert s[..k] == [s[0]] + s[1..][..k - 1];
      r
    else s
  }

  /** `trimEnd`: drops the trailing whitespace. */
  function TrimEnd(s: string): (r: string)
    ensures |r| <= |s| && r == s[..|r|]
    ensures r != [] ==> !IsSpace(r[|r| - 1])
    ensures IsBlank(s[|r|..])
  {
    if s != [] && IsSpace(s[|s| - 1]) then
      var r := TrimEnd(s[..|s| - 1]);
      assert s[|r|..] == s[..|s| - 1][|r|..] + [s[|s| - 1]];
      r
    else s
  }

  /** `trim`. */
  function Trim(s: string): (r: string)
    ensures r != [] ==> !IsSpace(r[0]) && !IsSpace(r[|r| - 1])
  {
    TrimEnd(TrimStart(s))
  }

  /** `trim` leaves a contiguous piece of its input and removes only whitespace around it. */
  lemma TrimIsInfix(s: string) returns (a: nat, b: nat)
    ensures a <= b <= |s| && Trim(s) == s[a..b] && IsBlank(s[..a]) && IsBlank(s[b..])
  {
    var t := TrimStart(s);
    a := |s| - |t|;
    var u := TrimEnd(t);
    b := a + |u|;
    assert Trim(s) == u;
    PrefixOfSuffix(s, t, u);
  }

  /** A prefix `u` of a suffix `t` of `s`, followed in `t` by whitespace only, is a piece of `s` followed by whitespace only. */
  lemma PrefixOfSuffix(s: string, t: string, u: string)
    requires |t| <= |s| && t == s[|s| - |t|..]
    requires |u| <= |t| && u == t[..|u|] && IsBlank(t[|u|..])
    ensures s[|s| - |t|..|s| - |t| + |u|] == u && IsBlank(s[|s| - |t| + |u|..])
  {
    var a := |s| - |t|;
    assert s[a + |u|..] == t[|u|..];
  }

  /** `s.trim()` is empty exactly when `s` is all whitespace. */
  lemma TrimEmptyIffBlank(s: string)
    ensures Trim(s) == [] <==> IsBlank(s)
  {
    var a, b := TrimIsInfix(s);
    if Trim(s) == [] {
      assert s == s[..a] + s[b..];
    } else {
      assert !IsSpace(s[a]);
      assert s[..a + 1][a] == s[a];
    }
  }

  /** No two neighbouring characters are both whitespace. */
  predicate NoAdjacentSpaces(s: string) {
    forall i :: 0 <= i < |s| - 1 ==> !(IsSpace(s[i]) && IsSpace(s[i + 1]))
  }

  /** The only whitespace character in `s` is the plain space. */
  predicate OnlyPlainSpaces(s: string) {
    forall i :: 0 <= i < |s| ==> IsSpace(s[i]) ==> s[i] == ' '
  }

  /** `replace(/\s+/g, ' ')`: every maximal run of whitespace becomes one space. */
  function CollapseSpaces(s: string): (r: string)
    ensures r == [] <==> s == []
    ensures r != [] ==> (IsSpace(r[0]) <==> IsSpace(s[0]))
    ensures r != [] ==> (IsSpace(r[|r| - 1]) <==> IsSpace(s[|s| - 1]))
    decreases |s|
  {
    if s == [] then []
    else if IsSpace(s[0]) && |s| > 1 && IsSpace(s[1]) then CollapseSpaces(s[1..])
    else if IsSpace(s[0]) then [' '] + CollapseSpaces(s[1..])
    else [s[0]] + CollapseSpaces(s[1..])
  }

  /** After collapsing, no two whitespace characters are neighbours and the only one left is the plain space. */
  lemma {:induction false} CollapseSpacesSpacing(s: string)
    ensures NoAdjacentSpaces(CollapseSpaces(s)) && OnlyPlainSpaces(CollapseSpaces(s))
    decreases |s|
  {
    if s != [] {
      CollapseSpacesSpacing(s[1..]);
    }
  }

  /** Text without whitespace is left as it is. */
  lemma {:induction false} CollapseSpacesOfSpaceless(s: string)
    requires forall i :: 0 <= i < |s| ==> !IsSpace(s[i])
    ensures CollapseSpaces(s) == s
    decreases |s|
  {
    if s != [] {
      CollapseSpacesOfSpaceless(s[1..]);
    }
  }

  /** A piece cut out of a string keeps `NoAdjacentSpaces` and `OnlyPlainSpaces`. */
  lemma InfixKeepsSpacing(s: string, a: nat, b: nat)
    requires a <= b <= |s|
    requires NoAdjacentSpaces(s) && OnlyPlainSpaces(s)
    ensures NoAdjacentSpaces(s[a..b]) && OnlyPlainSpaces(s[a..b])
  {
    var t := s[a..b];
    forall i | 0 <= i < |t| - 1 ensures !(IsSpace(t[i]) && IsSpace(t[i + 1])) {
      assert t[i] == s[a + i] && t[i + 1] == s[a + i + 1];
    }
  }

  /** `s.replace(/\s+/g, ' ').trim()`: no surrounding whitespace (see `SqueezeSpacing` for the inside). */
  function Squeeze(s: string): (r: string)
    ensures r != [] ==> !IsSpace(r[0]) && !IsSpace(r[|r| - 1])
  {
    Trim(CollapseSpaces(s))
  }

  /** Squeezed text has runs of whitespace reduced to one plain space. */
  lemma SqueezeSpacing(s: string)
    ensures NoAdjacentSpaces(Squeeze(s)) && OnlyPlainSpaces(Squeeze(s))
  {
    var c := CollapseSpaces(s);
    CollapseSpacesSpacing(s);
    var a, b := TrimIsInfix(c);
    InfixKeepsSpacing(c, a, b);
  }

  /** The steps applied one after the other, the first step first, as in a chain of `replace` calls. */
  function Chain(s: string, steps: seq<string -> string>): string
    decreases |steps|
  {
    if steps == [] then s else Chain(steps[0](s), steps[1..])
  }

  /** The last step of a chain is applied to what the steps before it produce. */
  lemma {:induction false} ChainSnoc(s: string, steps: seq<string -> string>, last: string -> string)
    ensures Chain(s, steps + [last]) == last(Chain(s, steps))
    decreases |steps|
  {
    if steps != [] {
      assert (steps + [last])[1..] == steps[1..] + [last];
      ChainSnoc(steps[0](s), steps[1..], last);
    }
  }

  /** A chain of two lists of steps is the second chain applied to the result of the first. */
  lemma {:induction false} ChainAppend(s: string, a: seq<string -> string>, b: seq<string -> string>)
    ensures Chain(s, a + b) == Chain(Chain(s, a), b)
    decreases |a|
  {
    if a == [] {
      assert a + b == b;
    } else {
      assert (a + b)[0] == a[0] && (a + b)[1..] == a[1..] + b;
      ChainAppend(a[0](s), a[1..], b);
    }
  }

  /** Steps that each leave `s` unchanged leave it unchanged together. */
  lemma {:induction false} ChainFixed(s: string, steps: seq<string -> string>)
    requires forall i :: 0 <= i < |steps| ==> steps[i](s) == s
    ensures Chain(s, steps) == s
    decreases |steps|
  {
    if steps != [] {
      assert steps[0](s) == s;
      ChainFixed(s, steps[1..]);
    }
  }

  /** The length of the longest prefix of `s` whose characters all satisfy `p` (a greedy `[…]*`). */
  function RunOf(s: string, p: char -> bool): (n: nat)
    ensures n <= |s|
    ensures forall i :: 0 <= i < n ==> p(s[i])
    ensures n < |s| ==> !p(s[n])
    decreases |s|
  {
    if s != [] && p(s[0]) then 1 + RunOf(s[1..], p) else 0
  }
  /** A run is exactly as long as its satisfying prefix. */
  lemma {:induction false} RunOfExact(s: string, p: char -> bool, n: nat)
    requires n <= |s| && (forall i :: 0 <= i < n ==> p(s[i])) && (n < |s| ==> !p(s[n]))
    ensures RunOf(s, p) == n
    decreases n
  {
    if n > 0 {
      RunOfExact(s[1..], p, n - 1);
    }
  }

  /** A string is the concatenation of its pieces between three cut points. */
  lemma Pieces(s: string, i: nat, j: nat, k: nat)
    requires i <= j <= k <= |s|
    ensures s == s[..i] + s[i..j] + s[j..k] + s[k..]
  {
    assert s[..i] + s[i..j] == s[..j];
    assert s[..j] + s[j..k] == s[..k];
  }

  /** The characters of `s` that satisfy `keep`, in their order. */
  function Filter(s: string, keep: char -> bool): (r: string)
    ensures |r| <= |s|
    ensures forall i :: 0 <= i < |r| ==> keep(r[i])
    decreases |s|
  {
    if s == [] then [] else (if keep(s[0]) then [s[0]] else []) + Filter(s[1..], keep)
  }

  /** Filtering a sequence that starts with `c`. */
  lemma FilterCons(c: char, x: string, keep: char -> bool)
    ensures Filter([c] + x, keep) == (if keep(c) then [c] else []) + Filter(x, keep)
  {
    assert ([c] + x)[0] == c && ([c] + x)[1..] == x;
  }

  /** Two strings that filter alike still do after the same first character. */
  lemma FilterConsSame(c: char, x: string, y: string, keep: char -> bool)
    requires Filter(x, keep) == Filter(y, keep)
    ensures Filter([c] + x, keep) == Filter([c] + y, keep)
  {
    FilterCons(c, x, keep);
    FilterCons(c, y, keep);
  }

  lemma {:induction false} FilterConcat(a: string, b: string, keep: char -> bool)
    ensures Filter(a + b, keep) == Filter(a, keep) + Filter(b, keep)
    decreases |a|
  {
    if a != [] {
      assert (a + b)[0] == a[0] && (a + b)[1..] == a[1..] + b;
      FilterConcat(a[1..], b, keep);
      calc {
        Filter(a + b, keep);
        (if keep(a[0]) then [a[0]] else []) + Filter(a[1..] + b, keep);
        (if keep(a[0]) then [a[0]] else []) + (Filter(a[1..], keep) + Filter(b, keep));
        Filter(a, keep) + Filter(b, keep);
      }
    } else {
      assert a + b == b;
    }
  }

  /** Filtering keeps a string whose every character passes. */
  lemma {:induction false} FilterAllKept(s: string, keep: char -> bool)
    requires forall i :: 0 <= i < |s| ==> keep(s[i])
    ensures Filter(s, keep) == s
    decreases |s|
  {
    if s != [] {
      FilterAllKept(s[1..], keep);
    }
  }

  /** Filtering drops a string whose every character fails. */
  lemma {:induction false} FilterNoneKept(s: string, keep: char -> bool)
    requires forall i :: 0 <= i < |s| ==> !keep(s[i])
    ensures Filter(s, keep) == []
    decreases |s|
  {
    if s != [] {
      FilterNoneKept(s[1..], keep);
    }
  }

  /** A prefix the test rejects throughout adds nothing to the filtered text. */
  lemma FilterSkipsRejected(a: string, b: string, keep: char -> bool)
    requires forall i :: 0 <= i < |a| ==> !keep(a[i])
    ensures Filter(a + b, keep) == Filter(b, keep)
  {
    FilterNoneKept(a, keep);
    FilterConcat(a, b, keep);
  }

  /** Filtering by a weaker test first changes nothing. */
  lemma {:induction false} FilterFilter(s: string, wide: char -> bool, narrow: char -> bool)
    requires forall c :: narrow(c) ==> wide(c)
    ensures Filter(Filter(s, wide), narrow) == Filter(s, narrow)
    decreases |s|
  {
    if s != [] {
      FilterFilter(s[1..], wide, narrow);
      var head := if wide(s[0]) then [s[0]] else [];
      FilterConcat(head, Filter(s[1..], wide), narrow);
      if wide(s[0]) {
        FilterCons(s[0], [], narrow);
      }
    }
  }

  predicate NotSpace(c: char) { !IsSpace(c) }

  /** Collapsing whitespace keeps every other character, in order. */
  lemma {:induction false} CollapseKeepsVisible(s: string)
    ensures Filter(CollapseSpaces(s), NotSpace) == Filter(s, NotSpace)
    decreases |s|
  {
    if s != [] {
      CollapseKeepsVisible(s[1..]);
      assert s == [s[0]] + s[1..];
      FilterCons(s[0], s[1..], NotSpace);
      if IsSpace(s[0]) && !(|s| > 1 && IsSpace(s[1])) {
        FilterCons(' ', CollapseSpaces(s[1..]), NotSpace);
      } else if !IsSpace(s[0]) {
        FilterCons(s[0], CollapseSpaces(s[1..]), NotSpace);
      }
    }
  }

  /** `trim` removes whitespace only. */
  lemma TrimKeepsVisible(s: string)
    ensures Filter(Trim(s), NotSpace) == Filter(s, NotSpace)
  {
    var a, b := TrimIsInfix(s);
    Thirds(s, a, b);
    BlankAround(s[..a], s[a..b], s[b..]);
  }

  lemma Thirds(s: string, a: nat, b: nat)
    requires a <= b <= |s|
    ensures s == s[..a] + s[a..b] + s[b..]
  {
  }

  /** Whitespace on both sides adds nothing to the visible characters. */
  lemma BlankAround(x: string, y: string, z: string)
    requires IsBlank(x) && IsBlank(z)
    ensures Filter(x + y + z, NotSpace) == Filter(y, NotSpace)
  {
    FilterConcat(x + y, z, NotSpace);
    FilterConcat(x, y, NotSpace);
    BlankFiltersEmpty(x);
    BlankFiltersEmpty(z);
  }

  lemma BlankFiltersEmpty(t: string)
    requires IsBlank(t)
    ensures Filter(t, NotSpace) == []
  {
    FilterNoneKept(t, NotSpace);
  }

  /** Squeezing changes whitespace only: the other characters stay, in order. */
  lemma SqueezeKeepsVisible(s: string)
    ensures Filter(Squeeze(s), NotSpace) == Filter(s, NotSpace)
  {
    TrimKeepsVisible(CollapseSpaces(s));
    CollapseKeepsVisible(s);
  }

  /** `p` occurs in `s` at index `j`. */
  predicate OccursAt(s: string, p: string, j: int) {
    0 <= j && j + |p| <= |s| && s[j..j + |p|] == p
  }

  /** `p` occurs in `s` at index `j` when ASCII letters are compared without case (the `/i` flag). */
  predicate OccursAtIgnoreCase(s: string, p: string, j: int) {
    0 <= j && j + |p| <= |s| && Lower(s[j..j + |p|]) == Lower(p)
  }

  /** `s.indexOf(p, from)`; `None` stands for -1. */
  function FindFrom(s: string, p: string, from: nat): (r: Option<nat>)
    requires from <= |s|
    ensures r.Some? ==> from <= r.value && OccursAt(s, p, r.value)
    ensures r.Some? ==> forall j :: from <= j < r.value ==> !OccursAt(s, p, j)
    ensures r.None? ==> forall j :: from <= j ==> !OccursAt(s, p, j)
    decreases |s| - from
  {
    if OccursAt(s, p, from) then Some(from)
    else if from + |p| >= |s| then None
    else FindFrom(s, p, from + 1)
  }

  /** The first index from `from` on where `p` occurs ignoring ASCII case; `None` when there is none. */
  function FindFromIgnoreCase(s: string, p: string, from: nat): (r: Option<nat>)
    requires from <= |s|
    ensures r.Some? ==> from <= r.value && OccursAtIgnoreCase(s, p, r.value)
    ensures r.Some? ==> forall j :: from <= j < r.value ==> !OccursAtIgnoreCase(s, p, j)
    ensures r.None? ==> forall j :: from <= j ==> !OccursAtIgnoreCase(s, p, j)
    decreases |s| - from
  {
    if OccursAtIgnoreCase(s, p, from) then Some(from)
    else if from + |p| >= |s| then None
    else FindFromIgnoreCase(s, p, from + 1)
  }

  /** `s.indexOf(p)`; `None` stands for -1. */
  function Find(s: string, p: string): (r: Option<nat>)
    ensures r.Some? ==> OccursAt(s, p, r.value)
    ensures r.Some? ==> forall j :: 0 <= j < r.value ==> !OccursAt(s, p, j)
    ensures r.None? ==> forall j :: !OccursAt(s, p, j)
  {
    FindFrom(s, p, 0)
  }

  /** `s.includes(p)`. */
  predicate Contains(s: string, p: string) {
    Find(s, p).Some?
  }

  /** `s.lastIndexOf(p)`; `None` stands for -1. */
  function FindLast(s: string, p: string): (r: Option<nat>)
    ensures r.Some? ==> OccursAt(s, p, r.value)
    ensures r.Some? ==> forall j :: r.value < j ==> !OccursAt(s, p, j)
    ensures r.None? ==> forall j :: !OccursAt(s, p, j)
  {
    if |p| > |s| then None else FindLastFrom(s, p, |s| - |p|)
  }

  function FindLastFrom(s: string, p: string, from: nat): (r: Option<nat>)
    requires from + |p| <= |s|
    ensures r.Some? ==> r.value <= from && OccursAt(s, p, r.value)
    ensures r.Some? ==> forall j :: r.value < j <= from ==> !OccursAt(s, p, j)
    ensures r.None? ==> forall j :: j <= from ==> !OccursAt(s, p, j)
  {
    if OccursAt(s, p, from) then Some(from)
    else if from == 0 then None
    else FindLastFrom(s, p, from - 1)
  }

  /** `s.startsWith(p)`. */
  predicate StartsWith(s: string, p: string) {
    |p| <= |s| && s[..|p|] == p
  }

  /** `s.endsWith(p)`. */
  predicate EndsWith(s: string, p: string) {
    |p| <= |s| && s[|s| - |p|..] == p
  }

  /** `body` between a heading and a footer. */
  function Framed(heading: string, body: string, footer: string): (r: string)
    ensures StartsWith(r, heading) && EndsWith(r, footer)
    ensures |r| == |heading| + |body| + |footer|
    ensures r[|heading|..|r| - |footer|] == body
  {
    var r := heading + body + footer;
    assert r[..|heading|] == heading;
    assert r[|heading|..|r| - |footer|] == body;
    assert r[|r| - |footer|..] == footer;
    r
  }

  /** A framed text starts with its heading followed by the first part of its body. */
  lemma FramedStartsWith(heading: string, first: string, more: string, footer: string)
    ensures StartsWith(Framed(heading, first + more, footer), heading + first)
  {
    var r := Framed(heading, first + more, footer);
    assert r == (heading + first) + (more + footer);
    Affixes(heading + first, more + footer);
  }

  /** String concatenation is associative. */
  lemma ConcatAssoc(a: string, b: string, c: string)
    ensures a + (b + c) == (a + b) + c
  {
  }

  /** Dropping the first part of a concatenation leaves the second; taking as many characters leaves the first. */
  lemma DropPrefix(a: string, b: string)
    ensures (a + b)[|a|..] == b && (a + b)[..|a|] == a
  {
  }

  /** A framed text whose body has two parts splits between them. */
  lemma FramedSplit(heading: string, b1: string, b2: string, footer: string)
    ensures Framed(heading, b1 + b2, footer) == (heading + b1) + (b2 + footer)
  {
  }

  /** A concatenation starts with its first part and ends with its second. */
  lemma Affixes(a: string, b: string)
    ensures StartsWith(a + b, a) && EndsWith(a + b, b)
  {
    assert (a + b)[..|a|] == a;
    assert (a + b)[|a + b| - |b|..] == b;
  }

  /** `s.replace(new RegExp(p, 'g'), rep)` for a literal, non-empty pattern `p`. */
  function ReplaceAll(s: string, p: string, rep: string): (r: string)
    requires p != []
    ensures !Contains(s, p) ==> r == s
    decreases |s|
  {
    if |s| < |p| then s
    else if s[..|p|] == p then
      assert OccursAt(s, p, 0);
      rep + ReplaceAll(s[|p|..], p, rep)
    else
      assert forall j :: 0 <= j < |s| - 1 ==> (OccursAt(s[1..], p, j) ==> OccursAt(s, p, j + 1)) by {
        forall j | 0 <= j < |s| - 1 && OccursAt(s[1..], p, j) ensures OccursAt(s, p, j + 1) {
          assert s[1..][j..j + |p|] == s[j + 1..j + 1 + |p|];
        }
      }
      [s[0]] + ReplaceAll(s[1..], p, rep)
  }

  /** `parts.join(sep)`. */
  function Join(parts: seq<string>, sep: string): string {
    if |parts| == 0 then ""
    else if |parts| == 1 then parts[0]
    else parts[0] + sep + Join(parts[1..], sep)
  }

  lemma JoinCons(x: string, xs: seq<string>, sep: string)
    requires |xs| >= 1
    ensures Join([x] + xs, sep) == x + sep + Join(xs, sep)
  {
    assert ([x] + xs)[1..] == xs;
  }

  /** The index of the first `c` in `s`, when there is one. */
  function IndexOfChar(s: string, c: char): (r: Option<nat>)
    ensures r.Some? <==> c in s
    ensures r.Some? ==> r.value < |s| && s[r.value] == c && c !in s[..r.value]
  {
    if s == [] then None
    else if s[0] == c then Some(0)
    else
      var r := IndexOfChar(s[1..], c);
      if r.Some? then Some(r.value + 1) else None
  }

  /** `s.split(sep)` for a one-character separator. */
  function Split(s: string, sep: char): (parts: seq<string>)
    ensures |parts| >= 1
    ensures forall i :: 0 <= i < |parts| ==> sep !in parts[i]
    decreases |s|
  {
    match IndexOfChar(s, sep)
    case None => [s]
    case Some(k) => [s[..k]] + Split(s[k + 1..], sep)
  }

  /** Splitting at the first separator: the piece before it, then the split of the rest. */
  lemma SplitAt(s: string, sep: char, k: nat)
    requires IndexOfChar(s, sep) == Some(k)
    ensures k < |s| && s == s[..k] + [sep] + s[k + 1..]
    ensures Split(s, sep) == [s[..k]] + Split(s[k + 1..], sep)
  {
    CutAt(s, k);
  }

  lemma CutAt(s: string, k: nat)
    requires k < |s|
    ensures s == s[..k] + [s[k]] + s[k + 1..]
  {
  }

  /** Splitting on a character and joining with it gives back the string. */
  lemma {:induction false} JoinSplit(s: string, sep: char)
    ensures Join(Split(s, sep), [sep]) == s
    decreases |s|
  {
    var r := IndexOfChar(s, sep);
    if r.Some? {
      var k := r.value;
      var rest := Split(s[k + 1..], sep);
      var parts := Split(s, sep);
      assert parts == [s[..k]] + rest;
      assert parts[1..] == rest;
      JoinSplit(s[k + 1..], sep);
      calc {
        Join(parts, [sep]);
        parts[0] + [sep] + Join(parts[1..], [sep]);
        s[..k] + [sep] + s[k + 1..];
      }
      assert s == s[..k] + [sep] + s[k + 1..];
    }
  }

  /** Joining pieces that do not contain the separator and splitting again gives back the pieces. */
  lemma {:induction false} SplitJoin(parts: seq<string>, sep: char)
    requires |parts| >= 1
    requires forall i :: 0 <= i < |parts| ==> sep !in parts[i]
    ensures Split(Join(parts, [sep]), sep) == parts
    decreases |parts|
  {
    if |parts| > 1 {
      var s := Join(parts, [sep]);
      assert s == parts[0] + [sep] + Join(parts[1..], [sep]);
      var k := |parts[0]|;
      assert s[k] == sep && s[..k] == parts[0];
      assert IndexOfChar(s, sep) == Some(k);
      assert s[k + 1..] == Join(parts[1..], [sep]);
      SplitJoin(parts[1..], sep);
    }
  }

  function DigitChar(d: nat): (c: char)
    requires d < 10
    ensures IsDigit(c)
  {
    ('0' as int + d) as char
  }

  /** The decimal rendering of a number, as template literals print it. */
  function NatToString(n: nat): (r: string)
    ensures |r| >= 1
    ensures forall i :: 0 <= i < |r| ==> IsDigit(r[i])
  {
    if n < 10 then [DigitChar(n)] else NatToString(n / 10) + [DigitChar(n % 10)]
  }

  function DigitValue(c: char): (d: nat)
    requires IsDigit(c)
    ensures d < 10
  {
    c as int - '0' as int
  }

  /** The value of a string of decimal digits. */
  function DecimalValue(s: string): nat
    requires forall i :: 0 <= i < |s| ==> IsDigit(s[i])
  {
    if s == [] then 0 else 10 * DecimalValue(s[..|s| - 1]) + DigitValue(s[|s| - 1])
  }

  /** Reading the rendering back gives the number. */
  lemma {:induction false} NatToStringRoundTrip(n: nat)
    ensures DecimalValue(NatToString(n)) == n
  {
    if n >= 10 {
      var s := NatToString(n);
      assert s[..|s| - 1] == NatToString(n / 10);
      NatToStringRoundTrip(n / 10);
    }
  }

  /** The rendering has no leading zero, so distinct numbers render differently. */
  lemma NatToStringInjective(m: nat, n: nat)
    requires NatToString(m) == NatToString(n)
    ensures m == n
  {
    NatToStringRoundTrip(m);
    NatToStringRoundTrip(n);
  }
}
