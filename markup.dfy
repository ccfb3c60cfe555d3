/** How a message becomes markup (static/app.js `renderMessage`): visitor text
    is escaped, operator text keeps its markup but has its links rewritten by
    `_ensureUrlSafety`. */
module Markup {

  import opened Wrappers
  import opened Text

  // ---------------------------------------------------------------------------
  // Escaping visitor text

  /** The serialisation of one character of a text node: what `_escapeHtml`
      gets back from `innerHTML` after setting `textContent`. */
  function EscapeChar(c: char): string {
    if c == '&' then "&amp;"
    else if c == '\U{00A0}' then "&nbsp;"
    else if c == '<' then "&lt;"
    else if c == '>' then "&gt;"
    else [c]
  }

  /** `_escapeHtml(text)`. The result holds no angle bracket, so no tag. */
  function EscapeHtml(s: string): (r: string)
    ensures '<' !in r && '>' !in r
    decreases |s|
  {
    if s == [] then [] else EscapeChar(s[0]) + EscapeHtml(s[1..])
  }

  /** What a browser shows for markup made of text and the four entities that
      `EscapeHtml` produces. */
  function DecodeEntities(s: string): string
    decreases |s|
  {
    if s == [] then []
    else if StartsWith(s, "&amp;") then "&" + DecodeEntities(s[5..])
    else if StartsWith(s, "&nbsp;") then "\U{00A0}" + DecodeEntities(s[6..])
    else if StartsWith(s, "&lt;") then "<" + DecodeEntities(s[4..])
    else if StartsWith(s, "&gt;") then ">" + DecodeEntities(s[4..])
    else [s[0]] + DecodeEntities(s[1..])
  }

  lemma DecodeEntity(entity: string, c: char, t: string)
    requires (entity, c) in {("&amp;", '&'), ("&nbsp;", '\U{00A0}'), ("&lt;", '<'), ("&gt;", '>')}
    ensures DecodeEntities(entity + t) == [c] + DecodeEntities(t)
  {
    var s := entity + t;
    assert s[..|entity|] == entity && s[|entity|..] == t;
    assert s[0] == '&' && s[1] == entity[1];
    if entity == "&amp;" {
      assert StartsWith(s, "&amp;");
    } else if entity == "&nbsp;" {
      assert s[1] != "&amp;"[1];
      assert StartsWith(s, "&nbsp;");
    } else if entity == "&lt;" {
      assert s[1] != "&amp;"[1] && s[1] != "&nbsp;"[1];
      assert StartsWith(s, "&lt;");
    } else {
      assert s[1] != "&amp;"[1] && s[1] != "&nbsp;"[1] && s[1] != "&lt;"[1];
      assert StartsWith(s, "&gt;");
    }
  }

  lemma DecodeEscapedChar(c: char, t: string)
    ensures DecodeEntities(EscapeChar(c) + t) == [c] + DecodeEntities(t)
  {
    if c == '&' {
      DecodeEntity("&amp;", c, t);
    } else if c == '\U{00A0}' {
      DecodeEntity("&nbsp;", c, t);
    } else if c == '<' {
      DecodeEntity("&lt;", c, t);
    } else if c == '>' {
      DecodeEntity("&gt;", c, t);
    } else {
      DecodePlainChar(c, t);
    }
  }

  lemma DecodePlainChar(c: char, t: string)
    requires c != '&'
    ensures DecodeEntities([c] + t) == [c] + DecodeEntities(t)
  {
    var s := [c] + t;
    assert s[0] == c && s[1..] == t;
    assert !StartsWith(s, "&amp;") && !StartsWith(s, "&nbsp;") && !StartsWith(s, "&lt;") && !StartsWith(s, "&gt;") by {
      assert "&amp;"[0] == '&' && "&nbsp;"[0] == '&' && "&lt;"[0] == '&' && "&gt;"[0] == '&';
    }
  }

  /** Visitor text is shown literally: decoding its escaped form gives it back,
      whatever markup it contains. */
  lemma {:induction false} EscapeRoundTrip(s: string)
    ensures DecodeEntities(EscapeHtml(s)) == s
    decreases |s|
  {
    if s != [] {
      EscapeRoundTrip(s[1..]);
      DecodeEscapedChar(s[0], EscapeHtml(s[1..]));
    }
  }

  // ---------------------------------------------------------------------------
  // Rewriting operator links

  const HrefOpen := "href=\""

  /** The replacement for a link to an absolute http(s) address. */
  function ExternalLink(url: string): string {
    HrefOpen + url + "\" target=\"_blank\" rel=\"noopener noreferrer\""
  }

  /** The replacement for any other link. */
  const InertLink := "href=\"#\" onclick=\"return false;\""

  predicate IsAbsoluteHttp(url: string) {
    StartsWith(url, "http://") || StartsWith(url, "https://")
  }

  /** The callback of `_ensureUrlSafety` for a matched URL. */
  function RewriteHref(url: string): (r: string)
    ensures IsAbsoluteHttp(url) ==> r == ExternalLink(url)
    ensures !IsAbsoluteHttp(url) ==> r == InertLink
  {
    if url != "" && IsAbsoluteHttp(url) then ExternalLink(url) else InertLink
  }

  /** Where the lazy `(.*?)"` ends: the first double quote of `s`, provided no
      line terminator (which `.` does not match) comes before it. */
  function ClosingQuote(s: string): (r: Option<nat>)
    ensures r.Some? ==> r.value < |s| && s[r.value] == '"'
    decreases |s|
  {
    if s == [] then None
    else if s[0] == '"' then Some(0)
    else if IsLineTerminator(s[0]) then None
    else match ClosingQuote(s[1..])
      case None => None
      case Some(k) => Some(k + 1)
  }

  /** The capture is as short as it can be: no quote and no line terminator
      comes before the closing quote. */
  lemma {:induction false} ClosingQuoteIsFirst(s: string)
    requires ClosingQuote(s).Some?
    ensures forall k :: 0 <= k < ClosingQuote(s).value ==> s[k] != '"' && !IsLineTerminator(s[k])
    decreases |s|
  {
    if s[0] != '"' {
      ClosingQuoteIsFirst(s[1..]);
      assert forall k :: 1 <= k < ClosingQuote(s).value ==> s[k] == s[1..][k - 1];
    }
  }

  /** Where `href="(.*?)"` matches at the start of `s`: the length of the
      captured URL. */
  function LinkAt(s: string): (r: Option<nat>)
    ensures r.Some? ==> 6 + r.value < |s| && s[6 + r.value] == '"'
  {
    if StartsWith(s, HrefOpen) then ClosingQuote(s[6..]) else None
  }

  /** One step of the global replace at the start of `s`: the replacement of
      a match there, or the first character, and how much of `s` it uses. */
  function Step(s: string): (r: (string, nat))
    requires s != []
    ensures 0 < r.1 <= |s|
  {
    match LinkAt(s)
    case Some(k) => (RewriteHref(s[6..6 + k]), 6 + k + 1)
    case None => ([s[0]], 1)
  }

  /** `html.replace(/href="(.*?)"/g, …)`: scanning from the left, each place
      where the pattern matches is replaced by `RewriteHref` of the captured
      URL, and the scan resumes after the match. */
  function SafeLinks(s: string): string
    decreases |s|
  {
    if s == [] then [] else var r := Step(s); r.0 + SafeLinks(s[r.1..])
  }

  /** `_ensureUrlSafety(html)`: the replace loop over the matches. */
  method EnsureUrlSafety(html: string) returns (out: string)
    ensures out == SafeLinks(html)
  {
    out := [];
    var rest := html;
    while rest != []
      invariant out + SafeLinks(rest) == SafeLinks(html)
      decreases |rest|
    {
      var step := Step(rest);
      StepKeepsResult(out, rest);
      out := out + step.0;
      rest := rest[step.1..];
    }
  }

  /** What the loop has produced, followed by what the replace produces from
      where it stands, is the same before and after a step. */
  lemma StepKeepsResult(out: string, rest: string)
    requires rest != []
    ensures (out + Step(rest).0) + SafeLinks(rest[Step(rest).1..]) == out + SafeLinks(rest)
  {
    assert SafeLinks(rest) == Step(rest).0 + SafeLinks(rest[Step(rest).1..]);
  }

  /** One complete link is rewritten, and the scan goes on after its closing
      quote. */
  lemma RewritesOneLink(url: string, rest: string)
    requires '"' !in url && forall k :: 0 <= k < |url| ==> !IsLineTerminator(url[k])
    ensures SafeLinks(HrefOpen + url + "\"" + rest) == RewriteHref(url) + SafeLinks(rest)
  {
    var s := HrefOpen + url + "\"" + rest;
    LinkAtOpening(url, rest);
    assert s[6..6 + |url|] == url;
    assert s[6 + |url| + 1..] == rest;
    assert Step(s) == (RewriteHref(url), 6 + |url| + 1);
  }

  lemma LinkAtOpening(url: string, rest: string)
    requires '"' !in url && forall k :: 0 <= k < |url| ==> !IsLineTerminator(url[k])
    ensures LinkAt(HrefOpen + url + "\"" + rest) == Some(|url|)
  {
    var s := HrefOpen + url + "\"" + rest;
    var t := url + ("\"" + rest);
    assert s == HrefOpen + t;
    assert |HrefOpen| == 6 && s[..6] == HrefOpen && s[6..] == t;
    ClosingQuoteAfter(url, "\"" + rest);
  }

  lemma {:induction false} ClosingQuoteAfter(url: string, t: string)
    requires '"' !in url && forall k :: 0 <= k < |url| ==> !IsLineTerminator(url[k])
    requires t != [] && t[0] == '"'
    ensures ClosingQuote(url + t) == Some(|url|)
    decreases |url|
  {
    if url != [] {
      assert (url + t)[1..] == url[1..] + t;
      ClosingQuoteAfter(url[1..], t);
    } else {
      assert url + t == t;
    }
  }

  /** Text in which the pattern starts nowhere, such as operator text
      without links, is copied unchanged. */
  lemma {:induction false} NoLinkUnchanged(s: string)
    requires forall i :: 0 <= i < |s| ==> !StartsWith(s[i..], HrefOpen)
    ensures SafeLinks(s) == s
    decreases |s|
  {
    if s != [] {
      assert s[0..] == s && !StartsWith(s, HrefOpen);
      assert Step(s) == ([s[0]], 1);
      forall i | 0 <= i < |s| - 1
        ensures !StartsWith(s[1..][i..], HrefOpen)
      {
        assert s[1..][i..] == s[i + 1..];
      }
      NoLinkUnchanged(s[1..]);
    }
  }

  /** A script link becomes the inert link. */
  lemma ScriptLinkDisabled()
    ensures SafeLinks(HrefOpen + "javascript:x" + "\"") == InertLink
  {
    RewritesOneLink("javascript:x", "");
    assert "javascript:x"[0] != "http://"[0] && "javascript:x"[0] != "https://"[0];
    assert HrefOpen + "javascript:x" + "\"" + "" == HrefOpen + "javascript:x" + "\"";
    assert !StartsWith("javascript:x", "http://") && !StartsWith("javascript:x", "https://");
  }

  /** An absolute https link is kept and opens in a new context without a
      back-reference. */
  lemma SiteLinkOpensSafely()
    ensures SafeLinks(HrefOpen + "https://mqa.gov.my" + "\"") == ExternalLink("https://mqa.gov.my")
  {
    RewritesOneLink("https://mqa.gov.my", "");
    assert HrefOpen + "https://mqa.gov.my" + "\"" + "" == HrefOpen + "https://mqa.gov.my" + "\"";
    assert StartsWith("https://mqa.gov.my", "https://");
  }

}
