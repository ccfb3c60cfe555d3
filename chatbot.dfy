/** The server's answer pipeline (chat.py, class `ChatBot`): the regional
    endpoint table, the extraction of a reply text from a Dialogflow CX
    response, the fallback texts, the URL sanitising and linking of
    `_format_response`, and the branching of `chat`.

    The Dialogflow call itself is not modelled: its outcome is a parameter.
    Python's `urlparse` and `quote` are parameters too (`parse` and `quote`),
    with `None` from `parse` standing for the exception it may raise. */
module ChatBot {

  import opened Wrappers
  import opened Text

  // ---------------------------------------------------------------------------
  // Regional endpoints (`_get_dialogflow_client_options`)

  const EndpointSuffix := "-dialogflow.googleapis.com:443"

  /** The regions with a Dialogflow endpoint of their own. */
  const Regions: set<string> := {
    "us-central1", "us-east1", "us-west1",
    "europe-west1", "europe-west2", "europe-west3",
    "asia-northeast1", "asia-southeast1", "australia-southeast1"
  }

  /** The endpoint of each region: its name, then the Dialogflow host and
      port 443. */
  const RegionEndpoints: map<string, string> := map r | r in Regions :: r + EndpointSuffix

  /** The `api_endpoint` of the client options, or `None` (the default
      endpoint) for a location the table does not list. */
  function ClientOptions(location: string): (r: Option<string>)
    ensures r.Some? <==> location in RegionEndpoints
    ensures r.Some? ==> r.value == location + EndpointSuffix
  {
    if location in RegionEndpoints then Some(RegionEndpoints[location])
    else None
  }

  // ---------------------------------------------------------------------------
  // URL sanitising (`_sanitize_url`)

  /** The six fields of the tuple `urlparse` returns. */
  datatype ParsedUrl = ParsedUrl(scheme: string, netloc: string, path: string,
                                 params: string, query: string, fragment: string)

  function SchemePart(scheme: string): string {
    if scheme != "" then scheme + ":" else ""
  }

  /** Python's `urlunparse` for a tuple with a network location (the only kind
      `_sanitize_url` passes it). */
  function UrlUnparse(p: ParsedUrl): (r: string)
    requires p.netloc != ""
    ensures StartsWith(r, SchemePart(p.scheme) + "//" + p.netloc)
    ensures forall x :: (x !in p.scheme && x !in p.netloc && x !in p.path && x !in p.params
                         && x !in p.query && x !in p.fragment && x !in ";/:?#") ==> x !in r
  {
    var path := if p.params != "" then p.path + ";" + p.params else p.path;
    var rooted := if path != "" && path[0] != '/' then "/" + path else path;
    var query := if p.query != "" then "?" + p.query else "";
    var fragment := if p.fragment != "" then "#" + p.fragment else "";
    var head := SchemePart(p.scheme) + "//" + p.netloc;
    StartsWithConcat(head, rooted + query + fragment);
    head + (rooted + query + fragment)
  }

  /** The URL with `https://` put in front unless it already names http or
      https. */
  function WithScheme(url: string): (r: string)
    ensures StartsWith(url, "http://") || StartsWith(url, "https://") ==> r == url
    ensures !(StartsWith(url, "http://") || StartsWith(url, "https://")) ==> r == "https://" + url
    ensures StartsWith(r, "http://") || StartsWith(r, "https://")
  {
    if StartsWith(url, "http://") || StartsWith(url, "https://") then url else "https://" + url
  }

  /** `_sanitize_url(url)`: `None` for an empty URL, one that does not parse,
      or one without a network location; otherwise the URL rebuilt from its
      parsed scheme and location and its quoted path, parameters, query and
      fragment. */
  function SanitizeUrl(url: string, parse: string -> Option<ParsedUrl>, quote: string -> string): (r: Option<string>)
    ensures url == "" ==> r.None?
    ensures url != "" ==> (r.Some? <==> parse(WithScheme(url)).Some? && parse(WithScheme(url)).value.netloc != "")
    ensures r.Some? ==>
      var p := parse(WithScheme(url)).value;
      StartsWith(r.value, SchemePart(p.scheme) + "//" + p.netloc)
  {
    if url == "" then None
    else match parse(WithScheme(url))
      case None => None
      case Some(p) =>
        if p.netloc == "" then None
        else Some(UrlUnparse(ParsedUrl(p.scheme, p.netloc, quote(p.path), quote(p.params),
                                       quote(p.query), quote(p.fragment))))
  }

  // ---------------------------------------------------------------------------
  // Finding URLs: `re.findall(r'(https?://[^\s<>"\'\)]+|www\.[^\s<>"\'\)]+)', s)`

  /** A character of the class `[^\s<>"'\)]`. */
  predicate IsUrlChar(c: char) {
    !IsPyWhitespace(c) && c != '<' && c != '>' && c != '"' && c != '\'' && c != ')'
  }

  predicate IsUrlText(u: string) {
    u != [] && forall j :: 0 <= j < |u| ==> IsUrlChar(u[j])
  }

  /** The length of the longest run of URL characters at the front of `s`. */
  function UrlRun(s: string): (n: nat)
    ensures n <= |s|
    ensures forall k :: 0 <= k < n ==> IsUrlChar(s[k])
    ensures n < |s| ==> !IsUrlChar(s[n])
    decreases |s|
  {
    if s != [] && IsUrlChar(s[0]) then 1 + UrlRun(s[1..]) else 0
  }

  /** A prefix of URL characters followed by a non-empty run is URL text. */
  lemma MatchIsUrlText(s: string, k: nat)
    requires k <= |s| && (forall j :: 0 <= j < k ==> IsUrlChar(s[j])) && UrlRun(s[k..]) > 0
    ensures IsUrlText(s[..k + UrlRun(s[k..])])
  {
    var n := k + UrlRun(s[k..]);
    forall j | 0 <= j < n
      ensures IsUrlChar(s[..n][j])
    {
      if j >= k {
        assert s[..n][j] == s[k..][j - k];
      }
    }
  }

  /** The length of the match at the front of `s`: `https://` or `http://` or
      `www.` followed by a greedy, non-empty run of URL characters. */
  function UrlMatch(s: string): (r: Option<nat>)
    ensures r.Some? ==> 0 < r.value <= |s| && IsUrlText(s[..r.value])
    ensures r.Some? ==> StartsWith(s, "http://") || StartsWith(s, "https://") || StartsWith(s, "www.")
    ensures r.Some? ==> r.value == |s| || !IsUrlChar(s[r.value])
  {
    if StartsWith(s, "https://") && UrlRun(s[8..]) > 0 then
      PrefixIsUrlText(s, "https://");
      MatchIsUrlText(s, 8);
      Some(8 + UrlRun(s[8..]))
    else if StartsWith(s, "http://") && UrlRun(s[7..]) > 0 then
      PrefixIsUrlText(s, "http://");
      MatchIsUrlText(s, 7);
      Some(7 + UrlRun(s[7..]))
    else if StartsWith(s, "www.") && UrlRun(s[4..]) > 0 then
      PrefixIsUrlText(s, "www.");
      MatchIsUrlText(s, 4);
      Some(4 + UrlRun(s[4..]))
    else None
  }

  lemma PrefixIsUrlText(s: string, p: string)
    requires p in {"https://", "http://", "www."} && StartsWith(s, p)
    ensures forall j :: 0 <= j < |p| ==> IsUrlChar(s[j])
  {
    forall j | 0 <= j < |p|
      ensures IsUrlChar(s[j])
    {
      assert s[j] == p[j];
    }
  }

  /** The matches of the URL pattern, left to right, each scan resuming after
      the previous match. */
  function FindUrls(s: string): (urls: seq<string>)
    ensures forall k :: 0 <= k < |urls| ==> IsUrlText(urls[k])
    decreases |s|
  {
    if s == [] then []
    else match UrlMatch(s)
      case Some(n) => [s[..n]] + FindUrls(s[n..])
      case None => FindUrls(s[1..])
  }

  /** Every URL found occurs in the text. */
  lemma {:induction false} FoundUrlsOccur(s: string)
    ensures forall k :: 0 <= k < |FindUrls(s)| ==> Contains(s, FindUrls(s)[k])
    decreases |s|
  {
    if s != [] {
      match UrlMatch(s)
      case Some(n) =>
        ContainsAt(s, s[..n], 0);
        FoundUrlsOccur(s[n..]);
        FindUrlsInSuffix(s, n);
      case None =>
        FoundUrlsOccur(s[1..]);
        FindUrlsInSuffix(s, 1);
    }
  }

  /** What occurs in a suffix occurs in the whole. */
  lemma FindUrlsInSuffix(s: string, n: nat)
    requires 0 < n <= |s|
    ensures forall u :: Contains(s[n..], u) ==> Contains(s, u)
  {
    forall u | Contains(s[n..], u)
      ensures Contains(s, u)
    {
      var i := ContainsWitness(s[n..], u);
      assert s[n + i..][..|u|] == s[n..][i..i + |u|];
      ContainsAt(s, u, n + i);
    }
  }

  /** A text without `http://`, `https://` and `www.` holds no URL. */
  lemma {:induction false} NoUrlsFound(s: string)
    requires !Contains(s, "http://") && !Contains(s, "https://") && !Contains(s, "www.")
    ensures FindUrls(s) == []
    decreases |s|
  {
    if s != [] {
      assert !StartsWith(s, "http://") && !StartsWith(s, "https://") && !StartsWith(s, "www.");
      NoUrlsFound(s[1..]);
    }
  }

  /** `s[i..e]` is a run of URL characters that stops at the end of `s` or
      at a character that cannot be in a URL. */
  ghost predicate UrlRunEnds(s: string, i: nat, e: nat)
    requires i <= e <= |s|
  {
    (forall j :: i <= j < e ==> IsUrlChar(s[j])) && (e == |s| || !IsUrlChar(s[e]))
  }

  /** A match of the pattern at `i` is such a run. */
  lemma MatchRunEnds(s: string, i: nat, n: nat)
    requires i <= |s| && UrlMatch(s[i..]) == Some(n)
    ensures i + n <= |s| && UrlRunEnds(s, i, i + n)
  {
    forall j | i <= j < i + n
      ensures IsUrlChar(s[j])
    {
      assert s[i..][..n][j - i] == s[j];
    }
    assert i + n < |s| ==> s[i..][n] == s[i + n];
  }

  /** Two runs that overlap end together: a match starting inside another
      runs to the same first non-URL character. */
  lemma MatchesEndTogether(s: string, p: nat, m: nat, i: nat, e: nat)
    requires p <= i < e <= |s| && i < p + m && UrlMatch(s[p..]) == Some(m) && UrlRunEnds(s, i, e)
    ensures e == p + m
  {
    MatchRunEnds(s, p, m);
  }

  /** `u` is the text of `s` that ends at `e` and starts at or before `i`. */
  ghost predicate EndsCovering(s: string, u: string, i: nat, e: nat) {
    |u| <= e <= |s| && e - |u| <= i && s[e - |u|..e] == u
  }

  /** Every URL the pattern matches anywhere in the text is found: some found
      URL starts at or before the match and ends where the match ends. */
  lemma UrlInTextFound(s: string, i: nat, n: nat)
    requires i < |s| && UrlMatch(s[i..]) == Some(n)
    ensures exists k :: 0 <= k < |FindUrls(s)| && EndsCovering(s, FindUrls(s)[k], i, i + n)
  {
    MatchRunEnds(s, i, n);
    var k := FoundInText(s, i, i + n);
    assert EndsCovering(s, FindUrls(s)[k], i, i + n);
  }

  /** The scan from the start finds the run `s[i..e]` that a match begins. */
  lemma FoundInText(s: string, i: nat, e: nat) returns (k: nat)
    requires i < e <= |s| && UrlRunEnds(s, i, e) && UrlMatch(s[i..]).Some?
    ensures k < |FindUrls(s)| && EndsCovering(s, FindUrls(s)[k], i, e)
  {
    k := FoundFrom(s, 0, i, e);
    assert s[0..] == s;
  }

  /** The scan resumed at `p` finds every match at or after `p`. */
  lemma {:induction false} FoundFrom(s: string, p: nat, i: nat, e: nat) returns (k: nat)
    requires p <= i < e <= |s| && UrlRunEnds(s, i, e) && UrlMatch(s[i..]).Some?
    ensures k < |FindUrls(s[p..])| && EndsCovering(s, FindUrls(s[p..])[k], i, e)
    decreases |s| - p
  {
    var r := UrlMatch(s[p..]);
    if r.Some? && i < p + r.value {
      FoundInMatch(s, p, r.value, i, e);
      k := 0;
    } else if r.Some? {
      var q := p + r.value;
      var l := FoundFrom(s, q, i, e);
      ScanPastMatch(s, p, q, l, FindUrls(s[q..])[l]);
      k := l + 1;
    } else {
      k := FoundFrom(s, p + 1, i, e);
      ScanPastOther(s, p);
    }
  }

  /** A run that starts inside the match at `p` is covered by that match. */
  lemma FoundInMatch(s: string, p: nat, m: nat, i: nat, e: nat)
    requires p <= i < e <= |s| && i < p + m && UrlMatch(s[p..]) == Some(m) && UrlRunEnds(s, i, e)
    ensures 0 < |FindUrls(s[p..])| && EndsCovering(s, FindUrls(s[p..])[0], i, e)
  {
    MatchesEndTogether(s, p, m, i, e);
    FoundAtResume(s, p, e);
  }

  /** The URL found where the scan resumes is the match there. */
  lemma FoundAtResume(s: string, p: nat, e: nat)
    requires p < e <= |s| && UrlMatch(s[p..]) == Some(e - p)
    ensures 0 < |FindUrls(s[p..])| && FindUrls(s[p..])[0] == s[p..e]
  {
    FindUrlsAtMatch(s[p..], e - p);
    assert s[p..][..e - p] == s[p..e];
  }

  /** After the match at `p`, the scan's URLs are those found after it. */
  lemma ScanPastMatch(s: string, p: nat, q: nat, l: nat, url: string)
    requires p < q <= |s| && UrlMatch(s[p..]) == Some(q - p)
    requires l < |FindUrls(s[q..])| && FindUrls(s[q..])[l] == url
    ensures l + 1 < |FindUrls(s[p..])| && FindUrls(s[p..])[l + 1] == url
  {
    FindUrlsAtMatch(s[p..], q - p);
    assert s[p..][q - p..] == s[q..];
  }

  /** Without a match at `p`, the scan's URLs are those found from `p + 1`. */
  lemma ScanPastOther(s: string, p: nat)
    requires p < |s| && UrlMatch(s[p..]).None?
    ensures FindUrls(s[p..]) == FindUrls(s[p + 1..])
  {
    FindUrlsAtOther(s[p..]);
    assert s[p..][1..] == s[p + 1..];
  }

  /** At a match the scan records it and resumes after it. */
  lemma FindUrlsAtMatch(s: string, m: nat)
    requires s != [] && UrlMatch(s) == Some(m)
    ensures FindUrls(s) == [s[..m]] + FindUrls(s[m..])
  {
  }

  /** Elsewhere the scan moves on by one character. */
  lemma FindUrlsAtOther(s: string)
    requires s != [] && UrlMatch(s).None?
    ensures FindUrls(s) == FindUrls(s[1..])
  {
  }

  // ---------------------------------------------------------------------------
  // Formatting (`_format_response`)

  const NoAnswerGenerated := "No answer generated. Please try again."

  const LinkTarget := "target=\"_blank\" rel=\"noopener noreferrer\""
  const LinkColour := " style=\"color: #1a3e8c;"
  const LinkDecoration := " text-decoration: underline;\">"
  const LinkStyle := LinkColour + LinkDecoration

  /** The anchor a sanitised URL is wrapped in. */
  function LinkHtml(href: string, url: string): string {
    "<a href=\"" + href + "\" " + LinkTarget + LinkStyle + url + "</a>"
  }

  /** The anchor opens a new browsing context without a back-reference, and
      is longer than the URL it shows. */
  lemma LinkOpensSafely(href: string, url: string)
    ensures Contains(LinkHtml(href, url), LinkTarget)
    ensures |LinkHtml(href, url)| > |url|
  {
    var head := "<a href=\"" + href + "\" ";
    var tail := LinkStyle + url + "</a>";
    assert LinkHtml(href, url) == head + LinkTarget + tail;
    assert (head + LinkTarget + tail)[|head|..][..|LinkTarget|] == LinkTarget;
    ContainsAt(head + LinkTarget + tail, LinkTarget, |head|);
  }

  /** The anchor of a URL and a link without newlines has none either. */
  lemma LinkHtmlHasNoNewline(href: string, url: string)
    requires '\n' !in href && '\n' !in url
    ensures '\n' !in LinkHtml(href, url)
  {
    TargetHasNoNewline();
    StyleHasNoNewline();
  }

  lemma TargetHasNoNewline()
    ensures '\n' !in LinkTarget
  {
  }

  lemma StyleHasNoNewline()
    ensures '\n' !in LinkStyle
  {
    assert '\n' !in LinkColour;
  }

  /** One iteration of the loop over the found URLs: every occurrence of the
      URL is replaced by its anchor when it sanitises, else left alone. */
  function WrapUrl(s: string, url: string, parse: string -> Option<ParsedUrl>, quote: string -> string): string
    requires url != []
  {
    match SanitizeUrl(url, parse, quote)
    case Some(href) => ReplaceAll(s, url, LinkHtml(href, url))
    case None => s
  }

  function WrapUrls(s: string, urls: seq<string>, parse: string -> Option<ParsedUrl>, quote: string -> string): string
    requires forall k :: 0 <= k < |urls| ==> IsUrlText(urls[k])
    decreases |urls|
  {
    if urls == [] then s
    else
      assert IsUrlText(urls[0]);
      WrapUrls(WrapUrl(s, urls[0], parse, quote), urls[1..], parse, quote)
  }

  /** The answer with its newlines turned into `<br>`. */
  function BrText(answer: string): (r: string)
    ensures '\n' !in r
  {
    ReplaceChar(answer, '\n', "<br>")
  }

  /** What `_format_response(answer)` returns as written: for each found URL
      in turn, every occurrence of it in the text so far is replaced by its
      anchor. */
  function FormattedAsWritten(answer: Option<string>, parse: string -> Option<ParsedUrl>, quote: string -> string): string {
    if !Truthy(answer) then NoAnswerGenerated
    else WrapUrls(BrText(answer.value), FindUrls(BrText(answer.value)), parse, quote)
  }

  /** `_format_response`: the loop over the URLs found in the `<br>` text. */
  method FormatResponse(answer: Option<string>, parse: string -> Option<ParsedUrl>, quote: string -> string)
    returns (formatted: string)
    ensures formatted == FormattedAsWritten(answer, parse, quote)
  {
    if !Truthy(answer) {
      return NoAnswerGenerated;
    }
    formatted := BrText(answer.value);
    var urls := FindUrls(formatted);
    ghost var target := WrapUrls(formatted, urls, parse, quote);
    var i := 0;
    while i < |urls|
      invariant 0 <= i <= |urls|
      invariant WrapUrls(formatted, urls[i..], parse, quote) == target
    {
      WrapUrlsStep(formatted, urls, i, parse, quote);
      var href := SanitizeUrl(urls[i], parse, quote);
      if href.Some? {
        formatted := ReplaceAll(formatted, urls[i], LinkHtml(href.value, urls[i]));
      }
      i := i + 1;
    }
  }

  lemma WrapUrlsStep(s: string, urls: seq<string>, i: nat, parse: string -> Option<ParsedUrl>, quote: string -> string)
    requires forall k :: 0 <= k < |urls| ==> IsUrlText(urls[k])
    requires i < |urls|
    ensures WrapUrls(s, urls[i..], parse, quote) == WrapUrls(WrapUrl(s, urls[i], parse, quote), urls[i + 1..], parse, quote)
  {
    assert urls[i..][1..] == urls[i + 1..];
  }

  /** A URL that sanitises ends up inside its anchor; one that does not leaves
      the text as it was. */
  lemma WrapUrlLinks(s: string, url: string, parse: string -> Option<ParsedUrl>, quote: string -> string)
    requires url != [] && Contains(s, url)
    ensures SanitizeUrl(url, parse, quote).None? ==> WrapUrl(s, url, parse, quote) == s
    ensures SanitizeUrl(url, parse, quote).Some? ==>
      Contains(WrapUrl(s, url, parse, quote), LinkHtml(SanitizeUrl(url, parse, quote).value, url))
  {
    if SanitizeUrl(url, parse, quote).Some? {
      ReplaceAllInserts(s, url, LinkHtml(SanitizeUrl(url, parse, quote).value, url));
    }
  }

  /** Python's `urlparse` and `quote` never produce a newline: `urlparse`
      drops newlines from its input and `quote` percent-encodes them. */
  ghost predicate NewlineFree(parse: string -> Option<ParsedUrl>, quote: string -> string) {
    && (forall u :: parse(u).Some? ==> '\n' !in parse(u).value.scheme && '\n' !in parse(u).value.netloc)
    && (forall t :: '\n' !in quote(t))
  }

  lemma SanitizedHasNoNewline(url: string, parse: string -> Option<ParsedUrl>, quote: string -> string)
    requires NewlineFree(parse, quote)
    ensures SanitizeUrl(url, parse, quote).Some? ==> '\n' !in SanitizeUrl(url, parse, quote).value
  {
  }

  /** Wrapping never shortens the text. */
  lemma {:induction false} WrapUrlsGrows(s: string, urls: seq<string>,
                                        parse: string -> Option<ParsedUrl>, quote: string -> string)
    requires forall k :: 0 <= k < |urls| ==> IsUrlText(urls[k])
    ensures |WrapUrls(s, urls, parse, quote)| >= |s|
    decreases |urls|
  {
    if urls != [] {
      var href := SanitizeUrl(urls[0], parse, quote);
      if href.Some? {
        LinkOpensSafely(href.value, urls[0]);
        ReplaceAllGrows(s, urls[0], LinkHtml(href.value, urls[0]));
      }
      WrapUrlsGrows(WrapUrl(s, urls[0], parse, quote), urls[1..], parse, quote);
    }
  }

  /** Wrapping a text without newlines introduces none. */
  lemma {:induction false} WrapUrlsHasNoNewline(s: string, urls: seq<string>,
                                               parse: string -> Option<ParsedUrl>, quote: string -> string)
    requires forall k :: 0 <= k < |urls| ==> IsUrlText(urls[k])
    requires NewlineFree(parse, quote) && '\n' !in s
    ensures '\n' !in WrapUrls(s, urls, parse, quote)
    decreases |urls|
  {
    if urls != [] {
      var url := urls[0];
      assert IsUrlText(url);
      UrlTextHasNoNewline(url);
      SanitizedHasNoNewline(url, parse, quote);
      var href := SanitizeUrl(url, parse, quote);
      if href.Some? {
        LinkHtmlHasNoNewline(href.value, url);
        ReplaceAllKeepsOut(s, url, LinkHtml(href.value, url), '\n');
      }
      WrapUrlsHasNoNewline(WrapUrl(s, url, parse, quote), urls[1..], parse, quote);
    }
  }

  /** The answer `_format_response` returns is on one line: every newline
      became `<br>` and no anchor brings one back. */
  lemma FormattedAsWrittenHasNoNewline(answer: Option<string>, parse: string -> Option<ParsedUrl>, quote: string -> string)
    requires NewlineFree(parse, quote)
    ensures '\n' !in FormattedAsWritten(answer, parse, quote)
  {
    if Truthy(answer) {
      var br := BrText(answer.value);
      WrapUrlsHasNoNewline(br, FindUrls(br), parse, quote);
    }
  }

  /** `_format_response`: a falsy answer gets the fixed apology; an answer
      without `http://`, `https://` or `www.` comes back with only its
      newlines replaced. */
  lemma FormatAsWrittenWithoutUrls(answer: Option<string>, parse: string -> Option<ParsedUrl>, quote: string -> string)
    ensures !Truthy(answer) ==> FormattedAsWritten(answer, parse, quote) == NoAnswerGenerated
    ensures Truthy(answer) && !Contains(BrText(answer.value), "http://") && !Contains(BrText(answer.value), "https://")
            && !Contains(BrText(answer.value), "www.")
            ==> FormattedAsWritten(answer, parse, quote) == BrText(answer.value)
  {
    if Truthy(answer) && !Contains(BrText(answer.value), "http://") && !Contains(BrText(answer.value), "https://")
       && !Contains(BrText(answer.value), "www.") {
      NoUrlsFound(BrText(answer.value));
    }
  }

  /** A non-empty answer formats to a non-empty text. */
  lemma FormattedAsWrittenNonEmpty(answer: string, parse: string -> Option<ParsedUrl>, quote: string -> string)
    requires answer != ""
    ensures FormattedAsWritten(Some(answer), parse, quote) != ""
  {
    var br := BrText(answer);
    BrTextNonEmpty(answer);
    WrapUrlsGrows(br, FindUrls(br), parse, quote);
  }

  lemma BrTextNonEmpty(answer: string)
    requires answer != ""
    ensures BrText(answer) != []
  {
    var br := BrText(answer);
    if answer[0] == '\n' {
      assert br[..4] == "<br>";
    } else {
      assert br[0] == answer[0];
    }
  }

  // ---------------------------------------------------------------------------
  // Linking each match once

  /** The anchor for one matched URL, or the URL itself when it does not
      sanitise. */
  function LinkFor(url: string, parse: string -> Option<ParsedUrl>, quote: string -> string): string {
    match SanitizeUrl(url, parse, quote)
    case Some(href) => LinkHtml(href, url)
    case None => url
  }

  /** Every match of the URL pattern replaced, where it stands and once, by
      its anchor: a single left-to-right pass, as `re.sub` with a replacement
      function makes. */
  function Linkify(s: string, parse: string -> Option<ParsedUrl>, quote: string -> string): string
    decreases |s|
  {
    if s == [] then []
    else match UrlMatch(s)
      case Some(n) => LinkFor(s[..n], parse, quote) + Linkify(s[n..], parse, quote)
      case None => [s[0]] + Linkify(s[1..], parse, quote)
  }

  lemma LinkifyAtMatch(s: string, n: nat, parse: string -> Option<ParsedUrl>, quote: string -> string)
    requires s != [] && UrlMatch(s) == Some(n)
    ensures Linkify(s, parse, quote) == LinkFor(s[..n], parse, quote) + Linkify(s[n..], parse, quote)
  {
  }

  lemma LinkifyAtOther(s: string, parse: string -> Option<ParsedUrl>, quote: string -> string)
    requires s != [] && UrlMatch(s).None?
    ensures Linkify(s, parse, quote) == [s[0]] + Linkify(s[1..], parse, quote)
  {
  }

  /** What `_format_response(answer)` is evidently meant to return: the
      `<br>` text with each URL made into one link. */
  function FormattedAnswer(answer: Option<string>, parse: string -> Option<ParsedUrl>, quote: string -> string): string {
    if !Truthy(answer) then NoAnswerGenerated
    else Linkify(BrText(answer.value), parse, quote)
  }

  /** A text in which no URL is found is left as it is. */
  lemma {:induction false} LinkifyWithoutUrls(s: string, parse: string -> Option<ParsedUrl>, quote: string -> string)
    requires FindUrls(s) == []
    ensures Linkify(s, parse, quote) == s
    decreases |s|
  {
    if s != [] && UrlMatch(s).None? {
      LinkifyWithoutUrls(s[1..], parse, quote);
    }
  }

  /** A falsy answer gets the fixed apology; an answer without `http://`,
      `https://` or `www.` comes back with only its newlines replaced. */
  lemma FormatWithoutUrls(answer: Option<string>, parse: string -> Option<ParsedUrl>, quote: string -> string)
    ensures !Truthy(answer) ==> FormattedAnswer(answer, parse, quote) == NoAnswerGenerated
    ensures Truthy(answer) && !Contains(BrText(answer.value), "http://") && !Contains(BrText(answer.value), "https://")
            && !Contains(BrText(answer.value), "www.")
            ==> FormattedAnswer(answer, parse, quote) == BrText(answer.value)
  {
    if Truthy(answer) && !Contains(BrText(answer.value), "http://") && !Contains(BrText(answer.value), "https://")
       && !Contains(BrText(answer.value), "www.") {
      NoUrlsFound(BrText(answer.value));
      LinkifyWithoutUrls(BrText(answer.value), parse, quote);
    }
  }

  /** URL text holds no newline. */
  lemma UrlTextHasNoNewline(u: string)
    requires IsUrlText(u)
    ensures '\n' !in u
  {
    assert !IsUrlChar('\n');
  }

  lemma {:induction false} LinkifyHasNoNewline(s: string, parse: string -> Option<ParsedUrl>, quote: string -> string)
    requires NewlineFree(parse, quote) && '\n' !in s
    ensures '\n' !in Linkify(s, parse, quote)
    decreases |s|
  {
    if s != [] {
      match UrlMatch(s)
      case Some(n) =>
        UrlTextHasNoNewline(s[..n]);
        SanitizedHasNoNewline(s[..n], parse, quote);
        if SanitizeUrl(s[..n], parse, quote).Some? {
          LinkHtmlHasNoNewline(SanitizeUrl(s[..n], parse, quote).value, s[..n]);
        }
        assert '\n' !in s[n..];
        LinkifyHasNoNewline(s[n..], parse, quote);
      case None =>
        LinkifyHasNoNewline(s[1..], parse, quote);
    }
  }

  /** The formatted answer is on one line: every newline became `<br>` and no
      anchor brings one back. */
  lemma FormattedHasNoNewline(answer: Option<string>, parse: string -> Option<ParsedUrl>, quote: string -> string)
    requires NewlineFree(parse, quote)
    ensures '\n' !in FormattedAnswer(answer, parse, quote)
  {
    if Truthy(answer) {
      LinkifyHasNoNewline(BrText(answer.value), parse, quote);
    }
  }

  /** Linking never shortens the text. */
  lemma {:induction false} LinkifyGrows(s: string, parse: string -> Option<ParsedUrl>, quote: string -> string)
    ensures |Linkify(s, parse, quote)| >= |s|
    decreases |s|
  {
    if s != [] {
      match UrlMatch(s)
      case Some(n) =>
        if SanitizeUrl(s[..n], parse, quote).Some? {
          LinkOpensSafely(SanitizeUrl(s[..n], parse, quote).value, s[..n]);
        }
        LinkifyGrows(s[n..], parse, quote);
      case None =>
        LinkifyGrows(s[1..], parse, quote);
    }
  }

  // ---------------------------------------------------------------------------
  // A URL that occurs twice

  /** A URL written `www.` and URL characters: one the pattern matches whole. */
  predicate IsWwwUrl(u: string) {
    StartsWith(u, "www.") && |u| > 4 && forall j :: 0 <= j < |u| ==> IsUrlChar(u[j])
  }

  /** At `www.` only the third alternative of the pattern can match. */
  lemma WwwMatch(s: string)
    requires StartsWith(s, "www.")
    ensures UrlMatch(s) == if UrlRun(s[4..]) > 0 then Some(4 + UrlRun(s[4..])) else None
  {
    assert s[0] == 'w';
    assert "https://"[0] == 'h' && "http://"[0] == 'h';
  }

  lemma {:induction false} UrlRunStops(u: string, rest: string)
    requires forall j :: 0 <= j < |u| ==> IsUrlChar(u[j])
    requires rest == [] || !IsUrlChar(rest[0])
    ensures UrlRun(u + rest) == |u|
    decreases |u|
  {
    if u == [] {
      assert u + rest == rest;
    } else {
      assert (u + rest)[1..] == u[1..] + rest;
      UrlRunStops(u[1..], rest);
    }
  }

  /** Such a URL, followed by the end or by a character that cannot be in a
      URL, is matched whole. */
  lemma WwwUrlMatch(u: string, rest: string)
    requires IsWwwUrl(u) && (rest == [] || !IsUrlChar(rest[0]))
    ensures UrlMatch(u + rest) == Some(|u|)
  {
    var s := u + rest;
    assert s[..4] == u[..4];
    WwwMatch(s);
    assert s[4..] == u[4..] + rest;
    UrlRunStops(u[4..], rest);
  }

  /** No match starts at a space. */
  lemma NoMatchAtSpace(t: string)
    ensures UrlMatch(" " + t).None? && (" " + t)[1..] == t
  {
    assert (" " + t)[0] == ' ';
    assert "https://"[0] == 'h' && "http://"[0] == 'h' && "www."[0] == 'w';
  }

  /** A lone URL is matched whole. */
  lemma LoneMatch(u: string)
    requires IsWwwUrl(u)
    ensures UrlMatch(u) == Some(|u|) && u[..|u|] == u && u[|u|..] == []
  {
    assert u + [] == u;
    WwwUrlMatch(u, []);
  }

  /** In `u u` the first match is the first `u`. */
  lemma FirstOfTwo(u: string)
    requires IsWwwUrl(u)
    ensures UrlMatch(u + " " + u) == Some(|u|)
    ensures (u + " " + u)[..|u|] == u && (u + " " + u)[|u|..] == " " + u
  {
    assert u + " " + u == u + (" " + u);
    WwwUrlMatch(u, " " + u);
  }

  /** `u u`: the URL is found twice. */
  lemma TwiceFound(u: string)
    requires IsWwwUrl(u)
    ensures FindUrls(u + " " + u) == [u, u]
  {
    FirstOfTwo(u);
    assert FindUrls(u + " " + u) == [u] + FindUrls(" " + u);
    NoMatchAtSpace(u);
    assert FindUrls(" " + u) == FindUrls(u);
    LoneMatch(u);
    assert FindUrls(u) == [u] + FindUrls([]);
  }

  /** `u u`: linked once at each place. */
  lemma TwiceLinked(u: string, parse: string -> Option<ParsedUrl>, quote: string -> string)
    requires IsWwwUrl(u)
    ensures Linkify(u + " " + u, parse, quote) == LinkFor(u, parse, quote) + " " + LinkFor(u, parse, quote)
  {
    var link := LinkFor(u, parse, quote);
    FirstOfTwo(u);
    LinkifyAtMatch(u + " " + u, |u|, parse, quote);
    SpaceThenLinked(u, parse, quote);
    assert link + (" " + link) == link + " " + link;
  }

  /** A space, then a lone URL: the space is copied and the URL linked. */
  lemma SpaceThenLinked(u: string, parse: string -> Option<ParsedUrl>, quote: string -> string)
    requires IsWwwUrl(u)
    ensures Linkify(" " + u, parse, quote) == " " + LinkFor(u, parse, quote)
  {
    NoMatchAtSpace(u);
    LinkifyAtOther(" " + u, parse, quote);
    LoneMatch(u);
    LinkifyAtMatch(u, |u|, parse, quote);
    assert LinkFor(u, parse, quote) + Linkify([], parse, quote) == LinkFor(u, parse, quote);
  }

  /** Replacing `u` everywhere in `u u` replaces both. */
  lemma ReplaceBoth(u: string, link: string)
    requires u != [] && u[0] != ' '
    ensures ReplaceAll(u + " " + u, u, link) == link + " " + link
  {
    var s := u + " " + u;
    assert ReplaceAll([], u, link) == [];
    assert u[..|u|] == u && u[|u|..] == [];
    assert ReplaceAll(u, u, link) == link;
    assert (" " + u)[..|u|][0] == ' ';
    assert (" " + u)[1..] == u;
    assert ReplaceAll(" " + u, u, link) == " " + link;
    assert s[..|u|] == u;
    assert s[|u|..] == " " + u;
  }

  /** An anchor shows its URL. */
  lemma LinkShowsUrl(href: string, url: string)
    ensures Contains(LinkHtml(href, url), url)
  {
    var head := "<a href=\"" + href + "\" " + LinkTarget + LinkStyle;
    assert LinkHtml(href, url) == head + url + "</a>";
    assert (head + url + "</a>")[|head|..][..|url|] == url;
    ContainsAt(head + url + "</a>", url, |head|);
  }

  /** A URL text that `_format_response` is given with no newline is its own
      `<br>` text. */
  lemma UrlTextUnbroken(s: string)
    requires forall j :: 0 <= j < |s| ==> IsUrlChar(s[j]) || s[j] == ' '
    ensures BrText(s) == s
  {
    assert !IsUrlChar('\n');
    assert '\n' !in s;
  }

  /** Replacing `u` in two copies of a link that shows `u` lengthens them. */
  lemma SecondPassLonger(u: string, link: string)
    requires u != [] && Contains(link, u) && |link| > |u|
    ensures |ReplaceAll(link + " " + link, u, link)| > |link + " " + link|
  {
    ContainsExtend(link, " " + link, u);
    assert link + " " + link == link + (" " + link);
    ReplaceAllGrows(link + " " + link, u, link);
  }

  /** As written, a URL that occurs twice is wrapped twice: the second pass of
      the loop finds the URL again inside the anchors the first pass made, so
      the result is longer than one link at each place. */
  lemma DuplicateUrlWrappedTwice(u: string, parse: string -> Option<ParsedUrl>, quote: string -> string)
    requires IsWwwUrl(u) && SanitizeUrl(u, parse, quote).Some?
    ensures |FormattedAsWritten(Some(u + " " + u), parse, quote)|
            > |LinkFor(u, parse, quote) + " " + LinkFor(u, parse, quote)|
  {
    var s := u + " " + u;
    var link := LinkHtml(SanitizeUrl(u, parse, quote).value, u);
    UrlTextUnbroken(s);
    TwiceFound(u);
    assert FormattedAsWritten(Some(s), parse, quote) == WrapUrls(s, [u, u], parse, quote);
    assert [u, u][1..] == [u] && [u][1..] == [];
    assert IsUrlChar(u[0]) && !IsUrlChar(' ');
    ReplaceBoth(u, link);
    assert WrapUrl(s, u, parse, quote) == link + " " + link;
    assert WrapUrls(s, [u, u], parse, quote) == WrapUrls(link + " " + link, [u], parse, quote);
    assert WrapUrls(link + " " + link, [u], parse, quote) == ReplaceAll(link + " " + link, u, link);
    LinkShowsUrl(SanitizeUrl(u, parse, quote).value, u);
    LinkOpensSafely(SanitizeUrl(u, parse, quote).value, u);
    SecondPassLonger(u, link);
    assert LinkFor(u, parse, quote) == link;
  }

  /** Linking in one pass turns each of the two occurrences into one anchor. */
  lemma DuplicateUrlLinkedOnce(u: string, parse: string -> Option<ParsedUrl>, quote: string -> string)
    requires IsWwwUrl(u)
    ensures FormattedAnswer(Some(u + " " + u), parse, quote)
            == LinkFor(u, parse, quote) + " " + LinkFor(u, parse, quote)
  {
    UrlTextUnbroken(u + " " + u);
    TwiceLinked(u, parse, quote);
  }

  /** A lone URL is linked the same way by the loop as written and by the
      single pass. */
  lemma LoneUrlAgrees(u: string, parse: string -> Option<ParsedUrl>, quote: string -> string)
    requires IsWwwUrl(u)
    ensures FormattedAsWritten(Some(u), parse, quote) == FormattedAnswer(Some(u), parse, quote)
    ensures FormattedAnswer(Some(u), parse, quote) == LinkFor(u, parse, quote)
  {
    UrlTextUnbroken(u);
    LoneMatch(u);
    assert FindUrls(u) == [u] + FindUrls([]);
    assert [u][1..] == [];
    assert FormattedAsWritten(Some(u), parse, quote) == WrapUrls(u, [u], parse, quote);
    assert WrapUrls(u, [u], parse, quote) == WrapUrls(WrapUrl(u, u, parse, quote), [], parse, quote);
    if SanitizeUrl(u, parse, quote).Some? {
      var link := LinkHtml(SanitizeUrl(u, parse, quote).value, u);
      assert ReplaceAll([], u, link) == [];
      assert ReplaceAll(u, u, link) == link;
    }
    assert Linkify(u, parse, quote) == LinkFor(u, parse, quote) + Linkify([], parse, quote);
  }

  // ---------------------------------------------------------------------------
  // Extracting the reply (`_extract_response_text`)

  /** A response message: the strings of its `text` part when that part is
      set; a payload or any other kind of message has none. */
  datatype ResponseMessage = ResponseMessage(text: Option<seq<string>>)

  /** The parts of `query_result` the extraction reads. An attribute that is
      missing or falsy is the empty list or string. */
  datatype QueryResult = QueryResult(
    responseMessages: seq<ResponseMessage>,
    fulfillmentText: string,
    fulfillmentMessages: seq<ResponseMessage>)

  /** A detect-intent response: its query result if truthy, and the text of
      `str(response)` (`None` when rendering it raises). */
  datatype DetectIntentResponse = DetectIntentResponse(queryResult: Option<QueryResult>, rendered: Option<string>)

  /** The strings the messages' text parts carry, in order. */
  function TextsOf(ms: seq<ResponseMessage>): seq<string>
    decreases |ms|
  {
    if ms == [] then []
    else TextsOf(ms[..|ms| - 1]) + ms[|ms| - 1].text.GetOr([])
  }

  /** The loop that extends `text_responses` with each text message's
      strings. */
  method CollectTexts(ms: seq<ResponseMessage>) returns (texts: seq<string>)
    ensures texts == TextsOf(ms)
  {
    texts := [];
    var i := 0;
    while i < |ms|
      invariant 0 <= i <= |ms|
      invariant texts == TextsOf(ms[..i])
    {
      assert ms[..i + 1][..i] == ms[..i];
      if ms[i].text.Some? {
        texts := texts + ms[i].text.value;
      }
      i := i + 1;
    }
    assert ms[..i] == ms;
  }

  predicate MentionsPekeliling(s: string) {
    Contains(s, "Pekeliling") || Contains(s, "pekeliling")
  }

  /** The lines that mention Pekeliling, in order. */
  function PekelilingLines(lines: seq<string>): (r: seq<string>)
    ensures |r| <= |lines|
    ensures forall k :: 0 <= k < |r| ==> MentionsPekeliling(r[k]) && r[k] in lines
    ensures forall k :: 0 <= k < |lines| && MentionsPekeliling(lines[k]) ==> lines[k] in r
    ensures (exists k :: 0 <= k < |lines| && MentionsPekeliling(lines[k])) ==> r != []
    decreases |lines|
  {
    if lines == [] then []
    else
      var rest := PekelilingLines(lines[1..]);
      assert forall k :: 1 <= k < |lines| ==> lines[k] == lines[1..][k - 1];
      (if MentionsPekeliling(lines[0]) then [lines[0]] else []) + rest
  }

  /** The filter keeps the order of the lines: filtering two blocks of lines
      one after the other gives the lines of the first block, then those of
      the second. */
  lemma {:induction false} PekelilingLinesAppend(a: seq<string>, b: seq<string>)
    ensures PekelilingLines(a + b) == PekelilingLines(a) + PekelilingLines(b)
    decreases |a|
  {
    if a != [] {
      assert (a + b)[1..] == a[1..] + b;
      PekelilingLinesAppend(a[1..], b);
    } else {
      assert a + b == b;
    }
  }

  const PekelilingHeader := "Information about Pekeliling:\n"

  /** The last resort: the first ten lines of the rendered response that
      mention Pekeliling. */
  function PekelilingSummary(rendered: string): Option<string> {
    var found := PekelilingLines(Split(rendered, '\n'));
    if found == [] then None
    else Some(PekelilingHeader + Join("\n", found[..if |found| < 10 then |found| else 10]))
  }

  /** The text `_extract_response_text(response)` returns. */
  function ExtractedText(response: DetectIntentResponse): Option<string> {
    match response.queryResult
    case None => None
    case Some(qr) =>
      if TextsOf(qr.responseMessages) != [] then Some(Join("\n", TextsOf(qr.responseMessages)))
      else if qr.fulfillmentText != "" then Some(qr.fulfillmentText)
      else if TextsOf(qr.fulfillmentMessages) != [] then Some(Join("\n", TextsOf(qr.fulfillmentMessages)))
      else if response.rendered.Some? && MentionsPekeliling(response.rendered.value) then
        PekelilingSummary(response.rendered.value)
      else None
  }

  /** `_extract_response_text`: the first of the four sources that yields a
      text. */
  method ExtractResponseText(response: DetectIntentResponse) returns (text: Option<string>)
    ensures text == ExtractedText(response)
  {
    if response.queryResult.None? {
      return None;
    }
    var qr := response.queryResult.value;
    if qr.responseMessages != [] {
      var texts := CollectTexts(qr.responseMessages);
      if texts != [] {
        return Some(Join("\n", texts));
      }
    } else {
      assert TextsOf(qr.responseMessages) == [];
    }
    if qr.fulfillmentText != "" {
      return Some(qr.fulfillmentText);
    }
    if qr.fulfillmentMessages != [] {
      var texts := CollectTexts(qr.fulfillmentMessages);
      if texts != [] {
        return Some(Join("\n", texts));
      }
    } else {
      assert TextsOf(qr.fulfillmentMessages) == [];
    }
    if response.rendered.Some? && MentionsPekeliling(response.rendered.value) {
      return PekelilingSummary(response.rendered.value);
    }
    return None;
  }

  /** A rendering that mentions Pekeliling always yields the summary: some
      line of it does. */
  lemma PekelilingMentionFound(rendered: string)
    requires MentionsPekeliling(rendered)
    ensures PekelilingSummary(rendered).Some?
    ensures StartsWith(PekelilingSummary(rendered).value, PekelilingHeader)
  {
    var lines := Split(rendered, '\n');
    if Contains(rendered, "Pekeliling") {
      ContainsInSomePiece(rendered, '\n', "Pekeliling");
    } else {
      ContainsInSomePiece(rendered, '\n', "pekeliling");
    }
    var k :| 0 <= k < |lines| && MentionsPekeliling(lines[k]);
    var s := PekelilingSummary(rendered).value;
    assert s[..|PekelilingHeader|] == PekelilingHeader;
  }

  lemma {:induction false} JoinNewlines(xs: seq<string>)
    requires xs != [] && forall k :: 0 <= k < |xs| ==> '\n' !in xs[k]
    ensures Occurrences(Join("\n", xs), '\n') == |xs| - 1
    decreases |xs|
  {
    if |xs| > 1 {
      JoinNewlines(xs[1..]);
      OccurrencesAppend(xs[0], "\n", '\n');
      OccurrencesAppend(xs[0] + "\n", Join("\n", xs[1..]), '\n');
    }
  }

  lemma KeptLinesOneLine(lines: seq<string>, kept: seq<string>)
    requires forall k :: 0 <= k < |lines| ==> '\n' !in lines[k]
    requires kept <= PekelilingLines(lines)
    ensures forall k :: 0 <= k < |kept| ==> '\n' !in kept[k]
  {
    forall k | 0 <= k < |kept|
      ensures '\n' !in kept[k]
    {
      assert kept[k] == PekelilingLines(lines)[k];
      assert kept[k] in lines;
    }
  }

  lemma HeaderIsOneLine()
    ensures Occurrences(PekelilingHeader, '\n') == 1
  {
    var h := PekelilingHeader;
    assert h == h[..|h| - 1] + "\n";
    assert '\n' !in h[..|h| - 1];
    OccurrencesAppend(h[..|h| - 1], "\n", '\n');
  }

  /** The Pekeliling summary has at most ten lines after its header, each
      from the rendering and each mentioning Pekeliling. */
  lemma PekelilingSummaryBounded(rendered: string)
    requires PekelilingSummary(rendered).Some?
    ensures Occurrences(PekelilingSummary(rendered).value, '\n') <= 10
  {
    var found := PekelilingLines(Split(rendered, '\n'));
    var kept := found[..if |found| < 10 then |found| else 10];
    KeptLinesOneLine(Split(rendered, '\n'), kept);
    JoinNewlines(kept);
    OccurrencesAppend(PekelilingHeader, Join("\n", kept), '\n');
    HeaderIsOneLine();
  }

  /** Extraction yields nothing exactly when no source has text: no query
      result, or no texts, no fulfillment text, and no mention of Pekeliling
      in the rendering. */
  lemma ExtractedNothingIff(response: DetectIntentResponse)
    ensures ExtractedText(response).None? <==>
      || response.queryResult.None?
      || (&& TextsOf(response.queryResult.value.responseMessages) == []
          && response.queryResult.value.fulfillmentText == ""
          && TextsOf(response.queryResult.value.fulfillmentMessages) == []
          && !(response.rendered.Some? && MentionsPekeliling(response.rendered.value)))
  {
    if response.queryResult.Some? && response.rendered.Some? && MentionsPekeliling(response.rendered.value) {
      PekelilingMentionFound(response.rendered.value);
    }
  }

  // ---------------------------------------------------------------------------
  // Calling the agent (`_call_vertex_ai_agent`)

  /** How the detect-intent call ended. */
  datatype AgentOutcome = Responded(response: DetectIntentResponse) | ApiCallError | OtherError

  const PekelilingFallback := "I understand you're asking about Pekeliling documents. However, I'm currently unable to retrieve the specific Pekeliling information from our knowledge base. Please try rephrasing your question or contact MQA directly for the most up-to-date Pekeliling documents."
  const GenericFallback := "I couldn't generate a proper response for your query. Please try rephrasing or ask about a different topic."
  const ServiceErrorText := "Sorry, I encountered an error with the AI service. Please try again in a moment."
  const ProcessingErrorText := "Sorry, I encountered an error processing your request. Please try again."

  /** One character of `str.lower()` as far as finding "pekeliling" goes: the
      ASCII capitals and the Kelvin sign, the only non-ASCII character whose
      lower case is one of that word's letters. */
  function LowerChar(c: char): char {
    if 'A' <= c <= 'Z' then (c as int + 32) as char
    else if c == '\U{212A}' then 'k'
    else c
  }

  function Lower(s: string): (r: string)
    ensures |r| == |s| && forall i :: 0 <= i < |s| ==> r[i] == LowerChar(s[i])
  {
    seq(|s|, i requires 0 <= i < |s| => LowerChar(s[i]))
  }

  /** The reply text `_call_vertex_ai_agent(query)` returns. */
  function AgentReply(query: string, outcome: AgentOutcome): (r: string)
    ensures r != ""
    ensures outcome.Responded? && Truthy(ExtractedText(outcome.response)) ==> r == ExtractedText(outcome.response).value
    ensures outcome.Responded? && !Truthy(ExtractedText(outcome.response)) ==>
      (r == PekelilingFallback <==> Contains(Lower(query), "pekeliling"))
      && (r == GenericFallback <==> !Contains(Lower(query), "pekeliling"))
    ensures outcome.ApiCallError? ==> r == ServiceErrorText
    ensures outcome.OtherError? ==> r == ProcessingErrorText
  {
    match outcome
    case ApiCallError => ServiceErrorText
    case OtherError => ProcessingErrorText
    case Responded(response) =>
      var answer := ExtractedText(response);
      if Truthy(answer) then answer.value
      else if Contains(Lower(query), "pekeliling") then PekelilingFallback
      else GenericFallback
  }

  method CallVertexAiAgent(query: string, outcome: AgentOutcome) returns (reply: string)
    ensures reply == AgentReply(query, outcome)
  {
    match outcome
    case ApiCallError =>
      return ServiceErrorText;
    case OtherError =>
      return ProcessingErrorText;
    case Responded(response) =>
      var answer := ExtractResponseText(response);
      if answer.Some? && answer.value != "" {
        return answer.value;
      }
      if Contains(Lower(query), "pekeliling") {
        return PekelilingFallback;
      }
      return GenericFallback;
  }

  // ---------------------------------------------------------------------------
  // `chat`

  /** The dictionary `chat` returns. */
  datatype ChatReply = ChatReply(answer: string, sources: seq<string>)

  const InvalidQueryText := "Please provide a valid question or message."
  const NotFoundText := "I couldn't find specific information about this. Please try rephrasing your question."

  /** `chat(query)`: a blank query is answered without calling the agent; a
      blank agent reply is replaced by the not-found text; any other reply is
      formatted. No source is ever listed. */
  method Chat(query: string, outcome: AgentOutcome, parse: string -> Option<ParsedUrl>, quote: string -> string)
    returns (reply: ChatReply)
    ensures reply.sources == []
    ensures IsPyBlank(query) ==> reply.answer == InvalidQueryText
    ensures !IsPyBlank(query) && IsPyBlank(AgentReply(query, outcome)) ==> reply.answer == NotFoundText
    ensures !IsPyBlank(query) && !IsPyBlank(AgentReply(query, outcome)) ==>
      reply.answer == FormattedAnswer(Some(AgentReply(query, outcome)), parse, quote)
    ensures reply.answer != ""
  {
    if IsPyBlank(query) {
      return ChatReply(InvalidQueryText, []);
    }
    var answer := CallVertexAiAgent(query, outcome);
    if IsPyBlank(answer) {
      return ChatReply(NotFoundText, []);
    }
    FormattedNonEmpty(answer, parse, quote);
    return ChatReply(FormattedAnswer(Some(answer), parse, quote), []);
  }

  /** `chat(query)` as written: the same branches, with the agent's reply
      formatted by the loop of `_format_response`. */
  method ChatAsWritten(query: string, outcome: AgentOutcome, parse: string -> Option<ParsedUrl>, quote: string -> string)
    returns (reply: ChatReply)
    ensures reply.sources == []
    ensures IsPyBlank(query) ==> reply.answer == InvalidQueryText
    ensures !IsPyBlank(query) && IsPyBlank(AgentReply(query, outcome)) ==> reply.answer == NotFoundText
    ensures !IsPyBlank(query) && !IsPyBlank(AgentReply(query, outcome)) ==>
      reply.answer == FormattedAsWritten(Some(AgentReply(query, outcome)), parse, quote)
    ensures reply.answer != ""
  {
    if IsPyBlank(query) {
      return ChatReply(InvalidQueryText, []);
    }
    var answer := CallVertexAiAgent(query, outcome);
    if IsPyBlank(answer) {
      return ChatReply(NotFoundText, []);
    }
    var formatted := FormatResponse(Some(answer), parse, quote);
    FormattedAsWrittenNonEmpty(answer, parse, quote);
    return ChatReply(formatted, []);
  }

  /** A non-empty answer formats to a non-empty text. */
  lemma FormattedNonEmpty(answer: string, parse: string -> Option<ParsedUrl>, quote: string -> string)
    requires answer != ""
    ensures FormattedAnswer(Some(answer), parse, quote) != ""
  {
    BrTextNonEmpty(answer);
    LinkifyGrows(BrText(answer), parse, quote);
  }
}
