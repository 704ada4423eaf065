/**
 * The part of the WHATWG URL parser (`new URL(s)` without a base) that the
 * core relies on: whether a string parses at all, its `protocol`, its
 * `hostname` and its `pathname`.
 */
module Url {
  import opened Wrappers
  import opened Text

  datatype Url = Url(protocol: string, hostname: string, pathname: string)

  /** C0 control or space: what the parser strips from both ends of its input. */
  predicate IsC0OrSpace(c: char) { c <= ' ' }

  predicate IsTabOrNewline(c: char) { c == '\t' || c == '\n' || c == '\r' }

  /** The special schemes, whose URLs always have a host and a path starting with `/`. */
  predicate IsSpecial(scheme: string) {
    scheme == "http" || scheme == "https" || scheme == "ftp" || scheme == "ws" || scheme == "wss" || scheme == "file"
  }

  predicate IsSchemeChar(c: char) {
    IsAlphaAscii(c) || IsDigit(c) || c == '+' || c == '-' || c == '.'
  }

  /** Code points a domain may not contain (percent-decoding is not modelled, so `%` is refused too). */
  predicate IsForbiddenHostChar(c: char) {
    c <= ' ' || c == '#' || c == '/' || c == ':' || c == '<' || c == '>' || c == '?' || c == '@'
    || c == '[' || c == '\\' || c == ']' || c == '^' || c == '|' || c == '%' || c == '\U{007F}'
  }

  /** Strips C0 controls and spaces from both ends. */
  function StripControls(s: string): (r: string)
    ensures |r| <= |s|
    ensures r != [] ==> !IsC0OrSpace(r[0]) && !IsC0OrSpace(r[|r| - 1])
    decreases |s|
  {
    if s == [] then s
    else if IsC0OrSpace(s[0]) then StripControls(s[1..])
    else if IsC0OrSpace(s[|s| - 1]) then StripControls(s[..|s| - 1])
    else s
  }

  /** Removes every tab and newline, wherever it is. */
  function RemoveTabsAndNewlines(s: string): (r: string)
    ensures forall i :: 0 <= i < |r| ==> !IsTabOrNewline(r[i])
  {
    if s == [] then s
    else
      var rest := RemoveTabsAndNewlines(s[1..]);
      if IsTabOrNewline(s[0]) then rest else [s[0]] + rest
  }

  /** The length of the scheme before the first `:`, if the input starts with a valid one. */
  function SchemeLength(s: string): (r: Option<nat>)
    ensures r.Some? ==> 0 < r.value < |s| && s[r.value] == ':' && IsAlphaAscii(s[0])
    ensures r.Some? ==> forall i :: 0 <= i < r.value ==> IsSchemeChar(s[i])
  {
    if s == [] || !IsAlphaAscii(s[0]) then None else SchemeEnd(s, 1)
  }

  function SchemeEnd(s: string, i: nat): (r: Option<nat>)
    requires 0 < i <= |s|
    requires forall k :: 0 <= k < i ==> IsSchemeChar(s[k])
    ensures r.Some? ==> i <= r.value < |s| && s[r.value] == ':'
    ensures r.Some? ==> forall k :: 0 <= k < r.value ==> IsSchemeChar(s[k])
    decreases |s| - i
  {
    if i == |s| then None
    else if s[i] == ':' then Some(i)
    else if IsSchemeChar(s[i]) then SchemeEnd(s, i + 1)
    else None
  }

  /** The index of the first character of `s` for which `stop` holds, or `|s|`. */
  function IndexWhere(s: string, stop: char -> bool): (r: nat)
    ensures r <= |s|
    ensures r < |s| ==> stop(s[r])
    ensures forall i :: 0 <= i < r ==> !stop(s[i])
  {
    if s == [] then 0 else if stop(s[0]) then 0 else 1 + IndexWhere(s[1..], stop)
  }

  /** Drops leading characters for which `skip` holds. */
  function DropWhile(s: string, skip: char -> bool): (r: string)
    ensures |r| <= |s| && r == s[|s| - |r|..]
    ensures r != [] ==> !skip(r[0])
  {
    if s != [] && skip(s[0]) then DropWhile(s[1..], skip) else s
  }

  /** The part after the last `@`, or all of it. */
  function AfterLastAt(s: string): (r: string)
    ensures '@' !in r
    ensures |r| <= |s|
  {
    if '@' !in s then s
    else
      var k := IndexWhere(s, c => c == '@');
      AfterLastAt(s[k + 1..])
  }

  function ReplaceBackslashes(s: string): (r: string)
    ensures |r| == |s|
    ensures '\\' !in r
  {
    seq(|s|, i requires 0 <= i < |s| => if s[i] == '\\' then '/' else s[i])
  }

  /**
   * Splits an authority into its host name (lower-cased) and checks the port;
   * `None` when the host has a forbidden character or the port is not a number
   * up to 65535.
   */
  function ParseHost(authority: string): (r: Option<string>)
    ensures r.Some? ==> forall i :: 0 <= i < |r.value| ==> !IsForbiddenHostChar(r.value[i]) && !IsUpperAscii(r.value[i])
  {
    var hostPort := AfterLastAt(authority);
    var k := IndexWhere(hostPort, c => c == ':');
    var host := hostPort[..k];
    var port := if k < |hostPort| then hostPort[k + 1..] else "";
    if exists i :: 0 <= i < |host| && IsForbiddenHostChar(host[i]) then None
    else if !(forall i :: 0 <= i < |port| ==> IsDigit(port[i])) then None
    else if DecimalValue(port) > 65535 then None
    else Some(Lower(host))
  }

  /** The path of a URL: everything before `?` or `#`. */
  function PathPart(rest: string): (r: string)
    ensures '?' !in r && '#' !in r
  {
    rest[..IndexWhere(rest, c => c == '?' || c == '#')]
  }

  /** The path of a special URL: backslashes read as slashes, and `/` when it is empty. */
  function SpecialPath(rest: string): (p: string)
    requires rest != [] ==> rest[0] == '/' || rest[0] == '\\' || rest[0] == '?' || rest[0] == '#'
    ensures StartsWith(p, "/")
  {
    var path := ReplaceBackslashes(PathPart(rest));
    if path == [] then "/" else path
  }

  /** A URL whose scheme is special, given what follows `scheme:`. */
  function ParseSpecial(scheme: string, afterScheme: string): (r: Option<Url>)
    ensures r.Some? ==> r.value.protocol == scheme + ":" && StartsWith(r.value.pathname, "/")
    ensures r.Some? && scheme != "file" ==> r.value.hostname != []
  {
    var afterSlashes := DropWhile(afterScheme, c => c == '/' || c == '\\');
    var k := IndexWhere(afterSlashes, c => c == '/' || c == '\\' || c == '?' || c == '#');
    match ParseHost(afterSlashes[..k])
    case None => None
    case Some(host) =>
      if host == [] && scheme != "file" then None else Some(Url(scheme + ":", host, SpecialPath(afterSlashes[k..])))
  }

  /** A URL whose scheme is not special, given what follows `scheme:`. */
  function ParseOther(scheme: string, afterScheme: string): (r: Option<Url>)
    ensures r.Some? ==> r.value.protocol == scheme + ":"
  {
    if StartsWith(afterScheme, "//") then
      var afterSlashes := afterScheme[2..];
      var k := IndexWhere(afterSlashes, c => c == '/' || c == '?' || c == '#');
      match ParseHost(afterSlashes[..k])
      case None => None
      case Some(host) => Some(Url(scheme + ":", host, PathPart(afterSlashes[k..])))
    else
      Some(Url(scheme + ":", "", PathPart(afterScheme)))
  }

  lemma HttpSchemeIsSpecial(scheme: string)
    ensures scheme + ":" == "http:" || scheme + ":" == "https:" ==> IsSpecial(scheme) && scheme != "file"
  {
    var p := scheme + ":";
    assert p[..|p| - 1] == scheme;
    if p == "http:" {
      assert scheme == "http";
    } else if p == "https:" {
      assert scheme == "https";
    }
  }

  /** `new URL(input)` with no base: `None` where it throws. */
  function Parse(input: string): (r: Option<Url>)
    ensures r.Some? ==> |r.value.protocol| >= 2 && r.value.protocol[|r.value.protocol| - 1] == ':'
    ensures r.Some? ==> forall i :: 0 <= i < |r.value.protocol| ==> !IsUpperAscii(r.value.protocol[i])
    ensures r.Some? && (r.value.protocol == "http:" || r.value.protocol == "https:") ==>
              r.value.hostname != [] && StartsWith(r.value.pathname, "/")
    ensures var s := RemoveTabsAndNewlines(StripControls(input));
      SchemeLength(s).None? ==> r.None?
    ensures var s := RemoveTabsAndNewlines(StripControls(input));
      r.Some? ==> SchemeLength(s).Some? && r.value.protocol == Lower(s[..SchemeLength(s).value]) + ":"
  {
    var s := RemoveTabsAndNewlines(StripControls(input));
    match SchemeLength(s)
    case None => None
    case Some(n) =>
      var scheme := Lower(s[..n]);
      ProtocolShape(scheme);
      if IsSpecial(scheme) then ParseSpecial(scheme, s[n + 1..]) else ParseOther(scheme, s[n + 1..])
  }

  lemma ProtocolShape(scheme: string)
    requires scheme != [] && forall i :: 0 <= i < |scheme| ==> !IsUpperAscii(scheme[i])
    ensures var p := scheme + ":"; |p| >= 2 && p[|p| - 1] == ':' && forall i :: 0 <= i < |p| ==> !IsUpperAscii(p[i])
    ensures scheme + ":" == "http:" || scheme + ":" == "https:" ==> IsSpecial(scheme) && scheme != "file"
  {
    HttpSchemeIsSpecial(scheme);
  }

  /** Whether `new URL(s)` succeeds. */
  predicate Parses(s: string) {
    Parse(s).Some?
  }

  /** Whether `s` parses with the `http:` or `https:` protocol. */
  predicate IsHttpUrl(s: string) {
    Parse(s).Some? && (Parse(s).value.protocol == "http:" || Parse(s).value.protocol == "https:")
  }
}
