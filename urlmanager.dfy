/**
 * The custom-URL list editor (`src/components/CustomUrlManager.tsx`): a list
 * of at most fifteen distinct URLs, the text being typed and the current
 * error message. Adding checks the typed text in a fixed order, removing
 * drops every equal entry, and clearing empties the list; each change of
 * the list is passed to the `onUrlsChange` callback, which the model
 * records as the sequence of lists it was given.
 */
module UrlManager {
  import opened Wrappers
  import opened Text
  import Seqs
  import CustomSources

  const MAX_URLS: nat := 15
  /** Why `addUrl` refuses the typed text. */
  datatype Refusal = Blank | NotHttp | Listed | Full

  /** The error message shown for each refusal. */
  function Message(r: Refusal): string {
    match r
    case Blank => "Please enter a URL"
    case NotHttp => "Please enter a valid URL (must include http:// or https://)"
    case Listed => "This URL is already in your list"
    case Full => "Maximum 15 URLs allowed"
  }

  /**
   * Why `addUrl` refuses `input` for the list `urls`, checked in this order:
   * blank (empty once trimmed), not an http(s) URL, already listed, list full.
   */
  function Rejection(urls: seq<string>, input: string): Option<Refusal> {
    if IsBlank(input) then Some(Blank)
    else if !CustomSources.IsValidUrl(input) then Some(NotHttp)
    else if input in urls then Some(Listed)
    else if |urls| >= MAX_URLS then Some(Full)
    else None
  }

  /** Each refusal happens exactly when its check is the first one to fail; otherwise the URL is admitted. */
  lemma RejectionCases(urls: seq<string>, input: string)
    ensures Rejection(urls, input) == Some(Blank) <==> IsBlank(input)
    ensures Rejection(urls, input) == Some(Blank) <==> Trim(input) == []
    ensures Rejection(urls, input) == Some(NotHttp) <==> !IsBlank(input) && !CustomSources.IsValidUrl(input)
    ensures Rejection(urls, input) == Some(Listed) <==>
      !IsBlank(input) && CustomSources.IsValidUrl(input) && input in urls
    ensures Rejection(urls, input) == Some(Full) <==>
      !IsBlank(input) && CustomSources.IsValidUrl(input) && input !in urls && |urls| >= MAX_URLS
    ensures Rejection(urls, input).None? <==>
      !IsBlank(input) && CustomSources.IsValidUrl(input) && input !in urls && |urls| < MAX_URLS
  {
    TrimEmptyIffBlank(input);
  }

  /** The error `addUrl` leaves behind: none, or the message of its refusal. */
  function ErrorAfterAdd(urls: seq<string>, input: string): Option<string> {
    var r := Rejection(urls, input);
    if r.Some? then Some(Message(r.value)) else None
  }

  /** An admitted URL is new and the list has room for it, so appending keeps the list valid. */
  lemma Admit(urls: seq<string>, input: string)
    requires Rejection(urls, input).None?
    requires Seqs.NoDuplicates(urls)
    ensures |urls + [input]| <= MAX_URLS && Seqs.NoDuplicates(urls + [input])
  {
    RejectionCases(urls, input);
    var s := urls + [input];
    forall i, j | 0 <= i < j < |s| ensures s[i] != s[j] {
      if j < |urls| { assert s[i] == urls[i] && s[j] == urls[j]; }
      else { assert s[i] == urls[i] && s[j] == input; }
    }
  }

  /** Once a URL has been admitted, typing it again is refused as already listed. */
  lemma AdmitTwice(urls: seq<string>, input: string)
    requires Rejection(urls, input).None?
    ensures Rejection(urls + [input], input) == Some(Listed)
  {
    assert (urls + [input])[|urls|] == input;
  }

  /** `urls.filter(url => url !== u)`. */
  function Without(urls: seq<string>, u: string): (r: seq<string>)
    ensures forall x :: multiset(r)[x] == if x == u then 0 else multiset(urls)[x]
    ensures |r| <= |urls|
  {
    if urls == [] then []
    else
      var p := urls[..|urls| - 1];
      var x := urls[|urls| - 1];
      assert urls == p + [x];
      Without(p, u) + if x == u then [] else [x]
  }

  /** Filtering keeps the order: it distributes over concatenation. */
  lemma {:induction false} WithoutConcat(a: seq<string>, b: seq<string>, u: string)
    ensures Without(a + b, u) == Without(a, u) + Without(b, u)
    decreases |b|
  {
    if b == [] {
      assert a + b == a;
    } else {
      var p := b[..|b| - 1];
      var x := b[|b| - 1];
      assert a + b == (a + p) + [x];
      assert b == p + [x];
      assert (a + b)[..|a + b| - 1] == a + p;
      WithoutConcat(a, p, u);
    }
  }

  /** Filtering out a value that occurs shortens the list. */
  lemma {:induction false} WithoutShorter(urls: seq<string>, u: string)
    requires u in urls
    ensures |Without(urls, u)| < |urls|
  {
    var p := urls[..|urls| - 1];
    var x := urls[|urls| - 1];
    assert urls == p + [x];
    if x != u {
      assert u in p;
      WithoutShorter(p, u);
    }
  }

  /** Filtering a list without repeats leaves a list without repeats. */
  lemma {:induction false} WithoutDistinct(urls: seq<string>, u: string)
    requires Seqs.NoDuplicates(urls)
    ensures Seqs.NoDuplicates(Without(urls, u))
  {
    if urls != [] {
      var p := urls[..|urls| - 1];
      var x := urls[|urls| - 1];
      assert Seqs.NoDuplicates(p);
      WithoutDistinct(p, u);
      assert x !in p;
      assert x !in multiset(Without(p, u));
    }
  }

  /** Removing a listed URL makes room for it again: typing it afterwards is admitted. */
  lemma RemoveReadmits(urls: seq<string>, u: string)
    requires u in urls && |urls| <= MAX_URLS
    requires !IsBlank(u) && CustomSources.IsValidUrl(u)
    ensures Rejection(Without(urls, u), u).None?
  {
    WithoutShorter(urls, u);
    assert multiset(Without(urls, u))[u] == 0;
  }

  class CustomUrlManager {
    var urls: seq<string>
    var inputUrl: string
    var error: Option<string>
    /** The lists passed to `onUrlsChange`, oldest first. */
    var notified: seq<seq<string>>

    /** What `addUrl` maintains: at most fifteen entries and no repeats. */
    ghost predicate Valid()
      reads this
    {
      |urls| <= MAX_URLS && Seqs.NoDuplicates(urls)
    }

    constructor()
      ensures urls == [] && inputUrl == "" && error == None
      ensures notified == []
      ensures Valid()
    {
      urls := [];
      inputUrl := "";
      error := None;
      notified := [];
    }

    /** Typing into the input field. */
    method SetInput(text: string)
      modifies this
      ensures inputUrl == text
      ensures urls == old(urls) && error == old(error)
      ensures notified == old(notified)
    {
      inputUrl := text;
    }

    /**
     * `addUrl`: the previous error is cleared, then the typed text is either
     * refused with its error, leaving everything else as it was, or appended
     * as typed (untrimmed), the input cleared and the new list announced.
     */
    method AddUrl()
      requires Valid()
      modifies this
      ensures Valid()
      ensures error == ErrorAfterAdd(old(urls), old(inputUrl))
      ensures error.Some? ==>
        urls == old(urls) && inputUrl == old(inputUrl) &&
        notified == old(notified)
      ensures error.None? ==>
        urls == old(urls) + [old(inputUrl)] && inputUrl == "" &&
        notified == old(notified) + [urls]
    {
      error := None;
      var reason := Rejection(urls, inputUrl);
      if reason.Some? {
        error := Some(Message(reason.value));
      } else {
        Admit(urls, inputUrl);
        var newUrls := urls + [inputUrl];
        urls := newUrls;
        notified := notified + [newUrls];
        inputUrl := "";
      }
    }

    /** `removeUrl`: every entry equal to `u` goes, the rest keep their order, and the new list is announced. */
    method RemoveUrl(u: string)
      requires Valid()
      modifies this
      ensures Valid()
      ensures urls == Without(old(urls), u) && u !in urls
      ensures notified == old(notified) + [urls]
      ensures inputUrl == old(inputUrl) && error == old(error)
    {
      WithoutDistinct(urls, u);
      var newUrls := Without(urls, u);
      assert u !in multiset(newUrls);
      urls := newUrls;
      notified := notified + [newUrls];
    }

    /** `clearAllUrls`: the list is emptied and the empty list announced. */
    method ClearAllUrls()
      modifies this
      ensures Valid()
      ensures urls == [] && notified == old(notified) + [[]]
      ensures inputUrl == old(inputUrl) && error == old(error)
    {
      urls := [];
      notified := notified + [[]];
    }
  }
}
