/**
 * The DuckDuckGo search: resolving a result link to its destination, the favicon
 * address, the whitespace sanitiser, the result-page cache key, turning scraped
 * result rows into results, and the cached search itself.
 *
 * `new URL(...)` and `decodeURIComponent` are parameters (`UrlEnv`); so are the
 * network (a reply per requested address), `encodeURIComponent`, and the rows that
 * cheerio selects from a page.
 */
module DuckDuckGo {
  import opened Wrappers
  import opened JsText
  import opened Http
  import opened TtlCache

  const RESULTS_PER_PAGE: int := 10

  const SEARCH_PAGE: string := "https://duckduckgo.com/html/?q="
  const MAX_CACHE_PAGES: nat := 5

  /** The parts of a parsed `URL` the resolver reads; `query` lists the search
      parameters in order. */
  datatype Url = Url(hostname: string, pathname: string, query: seq<(string, string)>)

  /** `new URL(s)` (`None` when it throws), `decodeURIComponent(s)` (`None` when it
      throws a URIError) and `encodeURIComponent(s)`. */
  datatype UrlEnv = UrlEnv(parse: string -> Option<Url>, decode: string -> Option<string>, encode: string -> string)

  /** `url.searchParams.get(name)`: the first value under `name`, `null` when absent. */
  function SearchParam(u: Url, name: string): Option<string> {
    FirstValue(u.query, name)
  }

  /** Index `i` holds the first parameter named `name`. */
  predicate FirstWith(params: seq<(string, string)>, i: int, name: string) {
    0 <= i < |params| && params[i].0 == name && forall k :: 0 <= k < i ==> params[k].0 != name
  }

  function FirstValue(params: seq<(string, string)>, name: string): (r: Option<string>)
    ensures r.Some? <==> (exists i :: 0 <= i < |params| && params[i].0 == name)
    ensures r.Some? ==> exists i :: FirstWith(params, i, name) && params[i].1 == r.value
  {
    if params == [] then None
    else if params[0].0 == name then Some(params[0].1)
    else
      var r := FirstValue(params[1..], name);
      assert forall i :: 1 <= i < |params| ==> params[i] == params[1..][i - 1];
      assert r.Some? ==> exists i :: FirstWith(params, i, name) && params[i].1 == r.value by {
        if r.Some? {
          var j :| FirstWith(params[1..], j, name) && params[1..][j].1 == r.value;
          assert params[j + 1] == params[1..][j];
          assert forall k :: 1 <= k < j + 1 ==> params[k].0 != name by {
            forall k | 1 <= k < j + 1 ensures params[k].0 != name {
              assert params[k] == params[1..][k - 1];
            }
          }
          assert FirstWith(params, j + 1, name);
        }
      }
      r
  }

  /** The relative-link normalisation: protocol-relative links get `https:`, and
      root-relative links get the DuckDuckGo origin. */
  function Normalise(link: string): (r: string)
    ensures StartsWith(link, "//") ==> r == "https:" + link
    ensures !StartsWith(link, "//") && StartsWith(link, "/") ==> r == "https://duckduckgo.com" + link
    ensures !StartsWith(link, "/") ==> r == link
  {
    if StartsWith(link, "//") then "https:" + link
    else if StartsWith(link, "/") then "https://duckduckgo.com" + link
    else link
  }

  /** The characters `[^\s<>"]` matches. */
  predicate UrlChar(c: char) {
    !IsSpace(c) && c != '<' && c != '>' && c != '"'
  }

  /** The length of the greedy run of URL characters starting at `i`. */
  function RunLen(s: string, i: nat): (n: nat)
    requires i <= |s|
    ensures i + n <= |s|
    ensures forall k :: i <= k < i + n ==> UrlChar(s[k])
    ensures i + n == |s| || !UrlChar(s[i + n])
    decreases |s| - i
  {
    if i < |s| && UrlChar(s[i]) then 1 + RunLen(s, i + 1) else 0
  }

  /** The length of `https?:\/\/` at `i`, or 0 when neither scheme is there. */
  function SchemeLen(s: string, i: nat): (n: nat)
    requires i <= |s|
    ensures n == 0 || n == 7 || n == 8
    ensures n == 8 <==> StartsWith(s[i..], "https://")
    ensures n == 7 <==> StartsWith(s[i..], "http://")
  {
    if StartsWith(s[i..], "https://") then
      assert s[i..][4] == 's';
      8
    else if StartsWith(s[i..], "http://") then 7
    else 0
  }

  /** Both schemes start with `h`. */
  lemma SchemeStartsWithH(s: string, i: nat)
    requires i <= |s| && SchemeLen(s, i) > 0
    ensures i < |s| && s[i] == 'h'
  {
    assert s[i..][0] == 'h';
  }

  /** A string without an `h` holds no URL, so the catch branch returns it unchanged. */
  lemma NoSchemeNoUrl(s: string)
    requires 'h' !in s
    ensures Scrape(s) == s
  {
    forall k | 0 <= k <= |s| ensures MatchLen(s, k) == 0 {
      if SchemeLen(s, k) > 0 { SchemeStartsWithH(s, k); }
    }
    FirstHttpUrlLeftmost(s);
  }

  /** The length of the match of `/https?:\/\/[^\s<>"]+/` at `i`, or 0. */
  function MatchLen(s: string, i: nat): (n: nat)
    requires i <= |s|
    ensures i + n <= |s|
    ensures n > 0 ==> SchemeLen(s, i) > 0 && n == SchemeLen(s, i) + RunLen(s, i + SchemeLen(s, i))
  {
    var k := SchemeLen(s, i);
    if k > 0 && i + k <= |s| && RunLen(s, i + k) > 0 then k + RunLen(s, i + k) else 0
  }

  /** The leftmost position at or after `i` where a match starts. */
  function FirstMatchFrom(s: string, i: nat): (r: Option<nat>)
    requires i <= |s|
    ensures r.Some? ==> i <= r.value <= |s| && MatchLen(s, r.value) > 0
    ensures r.Some? ==> forall k :: i <= k < r.value ==> MatchLen(s, k) == 0
    ensures r.None? ==> forall k :: i <= k <= |s| ==> MatchLen(s, k) == 0
    decreases |s| - i
  {
    if MatchLen(s, i) > 0 then Some(i)
    else if i == |s| then None
    else FirstMatchFrom(s, i + 1)
  }

  /** A match starts at `j` and at no earlier position. */
  predicate LeftmostMatch(s: string, j: int) {
    0 <= j <= |s| && MatchLen(s, j) > 0 && forall k :: 0 <= k < j ==> MatchLen(s, k) == 0
  }

  /** `s.match(/https?:\/\/[^\s<>"]+/)?.[0]`: the leftmost, longest URL in `s`. */
  function FirstHttpUrl(s: string): Option<string> {
    match FirstMatchFrom(s, 0)
    case Some(j) => Some(s[j..j + MatchLen(s, j)])
    case None => None
  }

  /** What `FirstHttpUrl` finds is the match at the leftmost position where one
      starts, and it finds nothing exactly when no position starts a match. */
  lemma FirstHttpUrlLeftmost(s: string)
    ensures var r := FirstHttpUrl(s);
      && (r.Some? ==> exists j :: LeftmostMatch(s, j) && r.value == s[j..j + MatchLen(s, j)])
      && (r.None? <==> forall k :: 0 <= k <= |s| ==> MatchLen(s, k) == 0)
  {
  }

  /** The catch branch of `extractDirectUrl`: the first URL inside the string, or the
      string itself. */
  function Scrape(s: string): string {
    match FirstHttpUrl(s)
    case Some(m) => m
    case None => s
  }

  /** Whether `u` is a DuckDuckGo address with the given path. */
  predicate OnDuckDuckGo(u: Url, path: string) {
    u.hostname == "duckduckgo.com" && u.pathname == path
  }

  /** The ad-redirect rule: the decoded `u3` target, or its decoded `ld` click URL;
      any failure inside yields the normalised link. */
  function AdTarget(n: string, u3: string, env: UrlEnv): string {
    match env.decode(u3)
    case None => n
    case Some(decoded) =>
      match env.parse(decoded)
      case None => n
      case Some(target) =>
        var ld := SearchParam(target, "ld");
        if Given(ld) then
          (match env.decode(ld.value) case Some(click) => click case None => n)
        else decoded
  }

  /** `extractDirectUrl`: the rules in order, under the `try` whose `catch` scrapes
      the normalised link. */
  function ExtractDirectUrl(link: string, env: UrlEnv): string {
    var n := Normalise(link);
    match env.parse(n)
    case None => Scrape(n)
    case Some(u) =>
      var uddg := SearchParam(u, "uddg");
      var u3 := SearchParam(u, "u3");
      if OnDuckDuckGo(u, "/l/") && Given(uddg) then
        match env.decode(uddg.value)
        case Some(d) => d
        case None => Scrape(n)
      else if OnDuckDuckGo(u, "/y.js") && Given(u3) then
        AdTarget(n, u3.value, env)
      else n
  }

  /** A `/l/` redirect with a non-empty `uddg` resolves to the decoded `uddg`, whatever
      other parameters the link carries. */
  lemma RedirectRule(link: string, env: UrlEnv, u: Url, d: string)
    requires env.parse(Normalise(link)) == Some(u)
    requires OnDuckDuckGo(u, "/l/") && Given(SearchParam(u, "uddg"))
    requires env.decode(SearchParam(u, "uddg").value) == Some(d)
    ensures ExtractDirectUrl(link, env) == d
  {
  }

  /** A `uddg` that cannot be decoded sends the link to the catch branch. */
  lemma RedirectUndecodable(link: string, env: UrlEnv, u: Url)
    requires env.parse(Normalise(link)) == Some(u)
    requires OnDuckDuckGo(u, "/l/") && Given(SearchParam(u, "uddg"))
    requires env.decode(SearchParam(u, "uddg").value) == None
    ensures ExtractDirectUrl(link, env) == Scrape(Normalise(link))
  {
  }

  /** The `/y.js` ad redirect: the decoded `ld` of the decoded `u3` when it has one,
      else the decoded `u3`; a failure decoding or parsing `u3` yields the normalised
      link. */
  lemma AdRule(link: string, env: UrlEnv, u: Url)
    requires env.parse(Normalise(link)) == Some(u)
    requires OnDuckDuckGo(u, "/y.js") && Given(SearchParam(u, "u3"))
    ensures var n := Normalise(link);
      var r := ExtractDirectUrl(link, env);
      match env.decode(SearchParam(u, "u3").value)
      case None => r == n
      case Some(decoded) =>
        match env.parse(decoded)
        case None => r == n
        case Some(target) =>
          if Given(SearchParam(target, "ld")) then
            r == (match env.decode(SearchParam(target, "ld").value) case Some(c) => c case None => n)
          else r == decoded
  {
  }

  /** A parseable link that matches neither redirect rule comes back normalised. */
  lemma PassThrough(link: string, env: UrlEnv, u: Url)
    requires env.parse(Normalise(link)) == Some(u)
    requires !(OnDuckDuckGo(u, "/l/") && Given(SearchParam(u, "uddg")))
    requires !(OnDuckDuckGo(u, "/y.js") && Given(SearchParam(u, "u3")))
    ensures ExtractDirectUrl(link, env) == Normalise(link)
  {
  }

  /** An unparseable link yields the leftmost URL inside it, or the link unchanged. */
  lemma Unparseable(link: string, env: UrlEnv)
    requires env.parse(Normalise(link)) == None
    ensures ExtractDirectUrl(link, env) == Scrape(Normalise(link))
  {
  }

  /** Every result is the normalised link, something `decodeURIComponent` produced,
      or the leftmost URL inside the normalised link. */
  lemma ResultOrigin(link: string, env: UrlEnv)
    ensures var r := ExtractDirectUrl(link, env);
      r == Normalise(link) || r == Scrape(Normalise(link)) || exists x :: env.decode(x) == Some(r)
  {
    var n := Normalise(link);
    var r := ExtractDirectUrl(link, env);
    if env.parse(n).Some? {
      var u := env.parse(n).value;
      var uddg := SearchParam(u, "uddg");
      var u3 := SearchParam(u, "u3");
      if OnDuckDuckGo(u, "/l/") && Given(uddg) {
        if env.decode(uddg.value).Some? {
          assert env.decode(uddg.value) == Some(r);
        }
      } else if OnDuckDuckGo(u, "/y.js") && Given(u3) {
        var d := env.decode(u3.value);
        if d.Some? && env.parse(d.value).Some? {
          var ld := SearchParam(env.parse(d.value).value, "ld");
          if Given(ld) && env.decode(ld.value).Some? {
            assert env.decode(ld.value) == Some(r);
          } else if !Given(ld) {
            assert env.decode(u3.value) == Some(r);
          }
        }
      }
    }
  }

  /** A link that is not relative and has no URL in it comes back as it is: the
      `'not-a-url'` case. */
  lemma NotAUrl(env: UrlEnv)
    requires env.parse("not-a-url") == None
    ensures ExtractDirectUrl("not-a-url", env) == "not-a-url"
  {
    var s := "not-a-url";
    assert s[0] == 'n';
    assert Normalise(s) == s;
    NoSchemeNoUrl(s);
  }

  /** A string whose only scheme is the `http://` after an `h`-free prefix yields the
      URL running from that scheme up to the first character a URL cannot hold: with
      `"Visit "`, `"example.com"` and `" for info"`, the `'Visit http://example.com for
      info'` case. */
  lemma EmbeddedScrape(p: string, w: string, r: string)
    requires 'h' !in p
    requires w != [] && forall i :: 0 <= i < |w| ==> UrlChar(w[i])
    requires r == [] || !UrlChar(r[0])
    ensures Scrape(p + "http://" + w + r) == "http://" + w
  {
    var u := "http://" + w;
    var t := u + r;
    var s := p + t;
    assert s == p + "http://" + w + r;
    assert forall k :: 0 <= k < |p| ==> MatchLen(s, k) == 0 by {
      NoMatchBefore(p, t);
    }
    assert MatchLen(s, |p|) == |u| by {
      assert s[|p|..] == t;
      MatchAfterScheme(s, |p|, w, r);
    }
    assert s[|p|..|p| + |u|] == u by {
      assert s[|p|..][..|u|] == t[..|u|] == u;
    }
    ScrapeAt(s, |p|, u);
  }

  /** A match of `u` at `at` and none before it is what `Scrape` returns. */
  lemma ScrapeAt(s: string, at: nat, u: string)
    requires at + |u| <= |s| && MatchLen(s, at) == |u| > 0 && s[at..at + |u|] == u
    requires forall k :: 0 <= k < at ==> MatchLen(s, k) == 0
    ensures Scrape(s) == u
  {
    FirstMatchSkips(s, 0, at);
    assert FirstMatchFrom(s, 0) == Some(at);
  }

  lemma NoMatchBefore(p: string, t: string)
    requires 'h' !in p
    ensures forall k :: 0 <= k < |p| ==> MatchLen(p + t, k) == 0
  {
    var s := p + t;
    forall k | 0 <= k < |p| ensures MatchLen(s, k) == 0 {
      if SchemeLen(s, k) > 0 { SchemeStartsWithH(s, k); }
    }
  }

  lemma MatchAfterScheme(s: string, at: nat, w: string, r: string)
    requires at <= |s| && s[at..] == "http://" + w + r
    requires w != [] && forall i :: 0 <= i < |w| ==> UrlChar(w[i])
    requires r == [] || !UrlChar(r[0])
    ensures MatchLen(s, at) == 7 + |w|
  {
    assert s[at..][..7] == "http://";
    assert s[at..][4] == ':';
    assert SchemeLen(s, at) == 7;
    RunLenIs(s, at + 7, |w|) by {
      forall k | at + 7 <= k < at + 7 + |w| ensures UrlChar(s[k]) {
        assert s[k] == s[at..][k - at] == w[k - at - 7];
      }
      if at + 7 + |w| < |s| {
        assert s[at + 7 + |w|] == s[at..][7 + |w|] == r[0];
      }
    }
  }

  /** The greedy run is exactly the stretch of URL characters that ends at a character
      a URL cannot hold, or at the end. */
  lemma RunLenIs(s: string, i: nat, n: nat)
    requires i + n <= |s|
    requires forall k :: i <= k < i + n ==> UrlChar(s[k])
    requires i + n == |s| || !UrlChar(s[i + n])
    ensures RunLen(s, i) == n
  {
  }

  lemma {:induction false} FirstMatchSkips(s: string, i: nat, j: nat)
    requires i <= j <= |s|
    requires forall k :: i <= k < j ==> MatchLen(s, k) == 0
    ensures FirstMatchFrom(s, i) == FirstMatchFrom(s, j)
    decreases j - i
  {
    if i < j {
      FirstMatchSkips(s, i + 1, j);
    }
  }

  /** `getFaviconUrl`: Google's favicon service for the host of a parseable URL, and
      the empty string exactly when the URL does not parse. */
  function GetFaviconUrl(url: string, parse: string -> Option<Url>): (r: string)
    ensures r == "" <==> parse(url).None?
    ensures parse(url).Some? ==>
      r == "https://www.google.com/s2/favicons?domain=" + parse(url).value.hostname + "&sz=32"
  {
    match parse(url)
    case Some(u) => "https://www.google.com/s2/favicons?domain=" + u.hostname + "&sz=32"
    case None => ""
  }

  /** Whitespace that is only single spaces, never two in a row. */
  predicate SingleSpaced(s: string) {
    && (forall i :: 0 <= i < |s| && IsSpace(s[i]) ==> s[i] == ' ')
    && (forall i, j :: 0 <= i < |s| && 0 <= j < |s| && j == i + 1 ==> !IsSpace(s[i]) || !IsSpace(s[j]))
  }

  lemma SingleSpacedSlice(s: string, a: nat, b: nat)
    requires SingleSpaced(s) && a <= b <= |s|
    ensures SingleSpaced(s[a..b])
  {
    var t := s[a..b];
    forall i | 0 <= i < |t| && IsSpace(t[i]) ensures t[i] == ' ' {
      assert t[i] == s[a + i];
    }
    forall i, j | 0 <= i < |t| && 0 <= j < |t| && j == i + 1 ensures !IsSpace(t[i]) || !IsSpace(t[j]) {
      assert t[i] == s[a + i] && t[j] == s[a + j];
    }
  }

  /** `s.replace(/\s+/g, ' ')`: every maximal whitespace run becomes one space. */
  function CollapseSpaceRuns(s: string): string
    decreases |s|
  {
    if s == [] then []
    else if IsSpace(s[0]) then
      TrimStartShrinks(s);
      " " + CollapseSpaceRuns(TrimStart(s))
    else [s[0]] + CollapseSpaceRuns(s[1..])
  }

  lemma TrimStartShrinks(s: string)
    requires s != [] && IsSpace(s[0])
    ensures |TrimStart(s)| < |s|
  {
  }

  /** The collapsed text is single-spaced, opens with whitespace exactly when the text
      does, and a text already single-spaced is left as it is. */
  lemma {:induction false} CollapseSpaceRunsSpec(s: string)
    ensures SingleSpaced(CollapseSpaceRuns(s))
    ensures |s| > 0 ==> |CollapseSpaceRuns(s)| > 0 && (IsSpace(CollapseSpaceRuns(s)[0]) <==> IsSpace(s[0]))
    ensures SingleSpaced(s) ==> CollapseSpaceRuns(s) == s
    decreases |s|
  {
    if s != [] {
      if IsSpace(s[0]) {
        TrimStartShrinks(s);
        var rest := TrimStart(s);
        CollapseSpaceRunsSpec(rest);
        var t := CollapseSpaceRuns(rest);
        assert CollapseSpaceRuns(s) == " " + t;
        SpaceThenSingleSpaced(t);
      } else {
        CollapseSpaceRunsSpec(s[1..]);
        var t := CollapseSpaceRuns(s[1..]);
        assert CollapseSpaceRuns(s) == [s[0]] + t;
        LetterThenSingleSpaced(s[0], t);
      }
    }
    if SingleSpaced(s) {
      CollapseSingleSpaced(s);
    }
  }

  /** A single-spaced text has no run to collapse. */
  lemma {:induction false} CollapseSingleSpaced(s: string)
    requires SingleSpaced(s)
    ensures CollapseSpaceRuns(s) == s
    decreases |s|
  {
    if s != [] {
      var tail := s[1..];
      SingleSpacedSlice(s, 1, |s|);
      CollapseSingleSpaced(tail);
      if IsSpace(s[0]) {
        SpaceRunOfSingleSpaced(s);
        assert CollapseSpaceRuns(s) == " " + tail;
      } else {
        assert CollapseSpaceRuns(s) == [s[0]] + tail;
      }
      assert [s[0]] + tail == s;
    }
  }

  /** A space before a single-spaced text that does not open with whitespace. */
  lemma SpaceThenSingleSpaced(t: string)
    requires SingleSpaced(t) && (t == [] || !IsSpace(t[0]))
    ensures SingleSpaced(" " + t)
  {
    var r := " " + t;
    forall i | 0 <= i < |r| && IsSpace(r[i]) ensures r[i] == ' ' {
      if i > 0 { assert r[i] == t[i - 1]; }
    }
    forall i, j | 0 <= i < |r| && 0 <= j < |r| && j == i + 1 ensures !IsSpace(r[i]) || !IsSpace(r[j]) {
      if i == 0 { assert r[1] == t[0]; } else { assert r[i] == t[i - 1] && r[j] == t[j - 1]; }
    }
  }

  /** A non-whitespace character before a single-spaced text. */
  lemma LetterThenSingleSpaced(c: char, t: string)
    requires !IsSpace(c) && SingleSpaced(t)
    ensures SingleSpaced([c] + t)
  {
    var r := [c] + t;
    forall i | 0 <= i < |r| && IsSpace(r[i]) ensures r[i] == ' ' {
      assert i > 0 && r[i] == t[i - 1];
    }
    forall i, j | 0 <= i < |r| && 0 <= j < |r| && j == i + 1 ensures !IsSpace(r[i]) || !IsSpace(r[j]) {
      if i > 0 { assert r[i] == t[i - 1] && r[j] == t[j - 1]; }
    }
  }

  /** In a single-spaced text that opens with whitespace, the run is one space. */
  lemma SpaceRunOfSingleSpaced(s: string)
    requires s != [] && IsSpace(s[0])
    ensures SingleSpaced(s) ==> s[0] == ' ' && TrimStart(s) == s[1..] && SingleSpaced(s[1..])
  {
    if SingleSpaced(s) {
      if |s| > 1 {
        assert !IsSpace(s[1]);
        assert TrimStart(s[1..]) == s[1..];
      }
      SingleSpacedSlice(s, 1, |s|);
    }
  }

  lemma TrimSingleSpaced(s: string)
    requires SingleSpaced(s)
    ensures SingleSpaced(Trim(s))
  {
    var t := TrimStart(s);
    SingleSpacedSlice(s, |s| - |t|, |s|);
    SingleSpacedSlice(t, 0, |TrimEnd(t)|);
  }

  /** `cleanText`: whitespace runs become single spaces, then the blank-line rule (which
      finds no newline left), then the `^\s+|\s+$` removal (which strips the same
      leading and trailing runs that `trim` strips), then `trim`. */
  function CleanText(text: string): (r: string)
    ensures Trimmed(r)
    ensures '\n' !in r
    ensures SingleSpaced(r)
  {
    var spaced := CollapseSpaceRuns(text);
    CollapseSpaceRunsSpec(text);
    SingleSpacedHasNoNewline(spaced);
    var unblanked := CollapseBlankLines(spaced);
    assert unblanked == spaced;
    var stripped := Trim(unblanked);
    TrimSingleSpaced(unblanked);
    TrimSingleSpaced(stripped);
    SingleSpacedHasNoNewline(Trim(stripped));
    Trim(stripped)
  }

  /** The only whitespace of a single-spaced text is the space, so no newline. */
  lemma SingleSpacedHasNoNewline(s: string)
    requires SingleSpaced(s)
    ensures '\n' !in s
  {
    if '\n' in s {
      var i :| 0 <= i < |s| && s[i] == '\n';
      assert IsSpace(s[i]);
    }
  }

  /** Cleaning is idempotent. */
  lemma CleanTextIdempotent(text: string)
    ensures CleanText(CleanText(text)) == CleanText(text)
  {
    var t := CleanText(text);
    CollapseSpaceRunsSpec(t);
    assert CollapseBlankLines(t) == t;
  }

  /** `getCacheKey`. */
  function GetCacheKey(query: string, page: int): (r: string)
    ensures StartsWith(r, query + "-")
  {
    var r := query + "-" + IntToString(page);
    assert r[..|query + "-"|] == query + "-";
    r
  }

  /** The index of the last `-` in `s`, or -1. */
  function LastDash(s: string): (i: int)
    ensures -1 <= i < |s|
  {
    if s == [] then -1 else if s[|s| - 1] == '-' then |s| - 1 else LastDash(s[..|s| - 1])
  }

  lemma {:induction false} LastDashOfKey(q: string, d: string)
    requires forall i :: 0 <= i < |d| ==> '0' <= d[i] <= '9'
    ensures LastDash(q + "-" + d) == |q|
    decreases |d|
  {
    var s := q + "-" + d;
    if d != [] {
      assert s[..|s| - 1] == q + "-" + d[..|d| - 1];
      LastDashOfKey(q, d[..|d| - 1]);
    }
  }

  lemma KeyParts(q: string, d: string)
    ensures (q + "-" + d)[..|q|] == q && (q + "-" + d)[|q| + 1..] == d
  {
  }

  /** For page numbers that are not negative, distinct (query, page) pairs give
      distinct keys: the digits after the last `-` are the page. */
  lemma CacheKeyInjective(q1: string, p1: int, q2: string, p2: int)
    requires p1 >= 0 && p2 >= 0
    requires GetCacheKey(q1, p1) == GetCacheKey(q2, p2)
    ensures q1 == q2 && p1 == p2
  {
    var d1, d2 := NatToString(p1), NatToString(p2);
    assert q1 + "-" + d1 == q2 + "-" + d2;
    LastDashOfKey(q1, d1);
    LastDashOfKey(q2, d2);
    KeyParts(q1, d1);
    KeyParts(q2, d2);
    NatToStringInjective(p1, p2);
  }

  /** Negative page numbers are where the key stops being unique. */
  lemma NegativePageCollides()
    ensures GetCacheKey("a", -1) == GetCacheKey("a-", 1)
  {
    assert IntToString(-1) == "-1";
    assert IntToString(1) == "1";
  }

  /** One `.result` element as cheerio reads it: the title anchor's text and `href`
      (absent when the attribute is missing), the snippet text and the display URL,
      all untrimmed. */
  datatype Row = Row(title: string, href: Option<string>, snippet: string, displayUrl: string)

  datatype SearchResult = SearchResult(title: string, url: string, snippet: string, favicon: string, displayUrl: string)

  /** `rawLink || ''`. */
  function RawLink(row: Row): string {
    if row.href.Some? then row.href.value else ""
  }

  /** The result a row yields: one exactly when it has a title and a destination. */
  function RowResult(row: Row, env: UrlEnv): (r: Option<SearchResult>)
    ensures r.Some? <==> Trim(row.title) != "" && ExtractDirectUrl(RawLink(row), env) != ""
    ensures r.Some? ==> r.value.url == ExtractDirectUrl(RawLink(row), env)
    ensures r.Some? ==> (r.value.title == Trim(row.title) && r.value.snippet == Trim(row.snippet) &&
      r.value.displayUrl == Trim(row.displayUrl) && r.value.favicon == GetFaviconUrl(r.value.url, env.parse))
  {
    var title := Trim(row.title);
    var directLink := ExtractDirectUrl(RawLink(row), env);
    var favicon := GetFaviconUrl(directLink, env.parse);
    if title != "" && directLink != "" then
      Some(SearchResult(title, directLink, Trim(row.snippet), favicon, Trim(row.displayUrl)))
    else None
  }

  /** The results of the rows, in page order. */
  function Results(rows: seq<Row>, env: UrlEnv): (r: seq<SearchResult>)
    ensures |r| <= |rows|
    ensures forall i :: 0 <= i < |r| ==> r[i].title != "" && r[i].url != ""
  {
    if rows == [] then []
    else
      var rest := Results(rows[..|rows| - 1], env);
      match RowResult(rows[|rows| - 1], env)
      case None => rest
      case Some(x) => rest + [x]
  }

  /** The `$('.result').each(...)` loop that pushes one result per usable row. */
  method BuildResults(rows: seq<Row>, env: UrlEnv) returns (results: seq<SearchResult>)
    ensures results == Results(rows, env)
  {
    results := [];
    var i := 0;
    while i < |rows|
      invariant 0 <= i <= |rows|
      invariant results == Results(rows[..i], env)
    {
      assert rows[..i + 1][..i] == rows[..i];
      var r := RowResult(rows[i], env);
      if r.Some? {
        results := results + [r.value];
      }
      i := i + 1;
    }
    assert rows[..i] == rows;
  }

  /** The address of the results page: the encoded query, and the offset of the
      page's first result, ten results per page. */
  function RequestUrl(query: string, page: int, encode: string -> string): (r: string)
    ensures StartsWith(r, PageHead(query, encode))
    ensures var offset := r[|PageHead(query, encode)|..];
      (page >= 1 ==> offset == NatToString(RESULTS_PER_PAGE * (page - 1))) &&
      (page < 1 ==> offset == "-" + NatToString(RESULTS_PER_PAGE * (1 - page)))
  {
    var head := PageHead(query, encode);
    var offset := IntToString((page - 1) * RESULTS_PER_PAGE);
    var r := head + offset;
    assert r[..|head|] == head && r[|head|..] == offset;
    r
  }

  /** The address up to the offset: the results page and the encoded query. */
  function PageHead(query: string, encode: string -> string): string {
    SEARCH_PAGE + encode(query) + "&s="
  }

  /** The times at which a search reads the clock: the purge, the cache check and the
      store. */
  datatype Clock = Clock(purgeAt: int, lookupAt: int, storeAt: int)

  /** What one search does to the cache and returns, given the cached slots before it,
      the reply to the page request and the rows cheerio finds in the page. */
  function Search(slots: seq<Slot<seq<SearchResult>>>, query: string, page: int, numResults: int,
                  clock: Clock, fetch: string -> Raw<string>, rowsOf: string -> seq<Row>, env: UrlEnv)
    : (r: (Result<seq<SearchResult>, JsError>, seq<Slot<seq<SearchResult>>>))
  {
    var purged := Purge(slots, clock.purgeAt);
    var key := GetCacheKey(query, page);
    var cached := Find(purged, key);
    if cached.Some? && Servable(cached.value, clock.lookupAt) then
      (Ok(SliceTo(cached.value.results, numResults)), purged)
    else
      match Axios(fetch(RequestUrl(query, page, env.encode)), DefaultAccepts)
      case Err(e) => (Err(e), purged)
      case Ok((status, html)) =>
        if status != 200 then (Err(JsError("Failed to fetch search results", None, None)), purged)
        else
          var paginated := SliceTo(Results(rowsOf(html), env), numResults);
          (Ok(paginated), EvictOldest(Insert(purged, key, Entry(paginated, clock.storeAt)), MAX_CACHE_PAGES))
  }

  /** After any search the cache holds distinct keys, at most five of them when it held
      at most five before; no expired entry survives; a fresh result is stored under its
      key; and what is returned holds at most `numResults` results. */
  lemma SearchKeepsCacheBounded(slots: seq<Slot<seq<SearchResult>>>, query: string, page: int, numResults: int,
                                clock: Clock, fetch: string -> Raw<string>, rowsOf: string -> seq<Row>, env: UrlEnv)
    requires DistinctKeys(slots) && |slots| <= MAX_CACHE_PAGES
    ensures var (r, after) := Search(slots, query, page, numResults, clock, fetch, rowsOf, env);
      DistinctKeys(after) && |after| <= MAX_CACHE_PAGES &&
      (numResults >= 0 && r.Ok? ==> |r.value| <= numResults)
    ensures var (r, after) := Search(slots, query, page, numResults, clock, fetch, rowsOf, env);
      var fetched := Find(Purge(slots, clock.purgeAt), GetCacheKey(query, page));
      r.Ok? && !(fetched.Some? && Servable(fetched.value, clock.lookupAt)) ==>
        Find(after, GetCacheKey(query, page)) == Some(Entry(r.value, clock.storeAt))
  {
    var purged := Purge(slots, clock.purgeAt);
    PurgeDistinct(slots, clock.purgeAt);
    var key := GetCacheKey(query, page);
    var cached := Find(purged, key);
    if !(cached.Some? && Servable(cached.value, clock.lookupAt)) {
      match Axios(fetch(RequestUrl(query, page, env.encode)), DefaultAccepts)
      case Err(_) =>
      case Ok((status, html)) =>
        if status == 200 {
          var paginated := SliceTo(Results(rowsOf(html), env), numResults);
          InsertThenEvict(purged, key, Entry(paginated, clock.storeAt), MAX_CACHE_PAGES);
        }
    }
  }

  /** A cached page is served only while younger than five minutes, and serving it
      changes nothing but the purge. */
  lemma CachedPageServed(slots: seq<Slot<seq<SearchResult>>>, query: string, page: int, numResults: int,
                         clock: Clock, fetch: string -> Raw<string>, rowsOf: string -> seq<Row>, env: UrlEnv,
                         e: Entry<seq<SearchResult>>)
    requires DistinctKeys(slots)
    requires Find(slots, GetCacheKey(query, page)) == Some(e)
    requires Servable(e, clock.lookupAt) && !Expired(e, clock.purgeAt)
    ensures Search(slots, query, page, numResults, clock, fetch, rowsOf, env) ==
      (Ok(SliceTo(e.results, numResults)), Purge(slots, clock.purgeAt))
  {
    PurgeFind(slots, clock.purgeAt, GetCacheKey(query, page));
  }

  /** `searchDuckDuckGo` over the module's cache. The thrown errors become `Err`. */
  method SearchDuckDuckGo(cache: ResultsCache<seq<SearchResult>>, query: string, page: int, numResults: int,
                          clock: Clock, fetch: string -> Raw<string>, rowsOf: string -> seq<Row>, env: UrlEnv)
    returns (r: Result<seq<SearchResult>, JsError>)
    requires cache.Valid()
    modifies cache
    ensures cache.Valid()
    ensures (r, cache.slots) == Search(old(cache.slots), query, page, numResults, clock, fetch, rowsOf, env)
  {
    cache.ClearOldCache(clock.purgeAt);
    var cacheKey := GetCacheKey(query, page);
    var cachedResults := cache.Get(cacheKey);
    if cachedResults.Some? && Servable(cachedResults.value, clock.lookupAt) {
      return Ok(SliceTo(cachedResults.value.results, numResults));
    }
    var response := Axios(fetch(RequestUrl(query, page, env.encode)), DefaultAccepts);
    if response.Err? {
      return Err(response.error);
    }
    var (status, html) := response.value;
    if status != 200 {
      return Err(JsError("Failed to fetch search results", None, None));
    }
    var results := BuildResults(rowsOf(html), env);
    var paginatedResults := SliceTo(results, numResults);
    cache.Set(cacheKey, Entry(paginatedResults, clock.storeAt));
    cache.RemoveOldestIfOver(MAX_CACHE_PAGES);
    r := Ok(paginatedResults);
  }
}
