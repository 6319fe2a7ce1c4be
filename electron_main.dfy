/**
 * The Electron main process (main.js): the `Cookie` header it builds from the
 * session cookies, the first-pair parsing of the `Set-Cookie` headers of the
 * callback response, the OAuth callback gate and the `app://` protocol rewrite.
 */
module ElectronMain {
  import opened Wrappers
  import opened Text

  /** A session cookie (only `name` and `value` are read). */
  datatype Cookie = Cookie(name: string, value: string)

  /** `${c.name}=${c.value}`. */
  function Render(c: Cookie): string
  {
    c.name + "=" + c.value
  }

  /** `cookies.map(c => `${c.name}=${c.value}`)`. */
  function Rendered(cs: seq<Cookie>): (r: seq<string>)
    ensures |r| == |cs|
    ensures forall i :: 0 <= i < |cs| ==> r[i] == Render(cs[i])
  {
    if cs == [] then [] else [Render(cs[0])] + Rendered(cs[1..])
  }

  /** The `Cookie` header of main.js:87 and main.js:136. */
  function CookieHeader(cs: seq<Cookie>): string
  {
    Join(Rendered(cs), "; ")
  }

  /** Every piece after the first, with the blank that follows each "; ". */
  function Indented(parts: seq<string>): (r: seq<string>)
    ensures |r| == |parts|
    ensures forall i :: 0 <= i < |parts| ==> r[i] == (if i == 0 then parts[i] else " " + parts[i])
  {
    if parts == [] then [] else [parts[0]] + Blanked(parts[1..])
  }

  function Blanked(parts: seq<string>): (r: seq<string>)
    ensures |r| == |parts|
    ensures forall i :: 0 <= i < |parts| ==> r[i] == " " + parts[i]
  {
    if parts == [] then [] else [" " + parts[0]] + Blanked(parts[1..])
  }

  lemma CookieHeaderEmpty()
    ensures CookieHeader([]) == ""
  {
  }

  lemma CookieHeaderSingle(c: Cookie)
    ensures CookieHeader([c]) == c.name + "=" + c.value
  {
  }

  /** The header of a list is its first cookie's rendering, then "; " and the header of the rest when there is a rest. */
  lemma CookieHeaderCons(c: Cookie, cs: seq<Cookie>)
    ensures CookieHeader([c] + cs) == Render(c) + (if cs == [] then "" else "; " + CookieHeader(cs))
  {
    assert ([c] + cs)[1..] == cs;
    assert Rendered([c] + cs) == [Render(c)] + Rendered(cs);
    if cs != [] {
      JoinCons(Render(c), Rendered(cs), "; ");
    }
  }

  lemma JoinBlankHead(y: string, r: seq<string>, sep: string)
    ensures Join([" " + y] + r, sep) == " " + Join([y] + r, sep)
  {
    if |r| > 0 {
      assert ([" " + y] + r)[1..] == r;
      assert ([y] + r)[1..] == r;
    }
  }

  /** Joining with "; " is joining with ";" the pieces after the first prefixed by a blank. */
  lemma {:induction false} JoinIndented(x: string, ps: seq<string>)
    ensures Join([x] + ps, "; ") == Join([x] + Blanked(ps), ";")
    decreases |ps|
  {
    if ps != [] {
      JoinIndented(ps[0], ps[1..]);
      assert ([x] + ps)[1..] == [ps[0]] + ps[1..];
      assert ([x] + Blanked(ps))[1..] == Blanked(ps) == [" " + ps[0]] + Blanked(ps[1..]);
      JoinBlankHead(ps[0], Blanked(ps[1..]), ";");
    }
  }

  /**
   * The header keeps every cookie, in list order: split on ';' it gives back the
   * rendered cookies (after the first, each behind the blank of "; "), as long as
   * no name or value holds a ';'.
   */
  lemma CookieHeaderSplit(cs: seq<Cookie>)
    requires cs != []
    requires forall i :: 0 <= i < |cs| ==> ';' !in cs[i].name && ';' !in cs[i].value
    ensures Split(CookieHeader(cs), ';') == Indented(Rendered(cs))
  {
    var r := Rendered(cs);
    assert r == [r[0]] + r[1..];
    JoinIndented(r[0], r[1..]);
    var pieces := Indented(r);
    assert [r[0]] + Blanked(r[1..]) == pieces;
    PiecesHaveNoSemicolon(cs);
    SplitJoin(pieces, ';');
  }

  lemma PiecesHaveNoSemicolon(cs: seq<Cookie>)
    requires forall i :: 0 <= i < |cs| ==> ';' !in cs[i].name && ';' !in cs[i].value
    ensures forall k :: 0 <= k < |cs| ==> ';' !in Indented(Rendered(cs))[k]
  {
    var r := Rendered(cs);
    forall k | 0 <= k < |cs|
      ensures ';' !in Indented(r)[k]
    {
      RenderedHasNo(cs[k], ';');
      assert r[k] == Render(cs[k]);
    }
  }

  /** A character in neither the name nor the value, other than '=' and ' ', is in no rendering. */
  lemma RenderedHasNo(c: Cookie, x: char)
    requires x !in c.name && x !in c.value && x != '=' && x != ' '
    ensures x !in Render(c) && x !in " " + Render(c)
  {
    assert Render(c) == c.name + "=" + c.value;
    assert " " + Render(c) == " " + c.name + "=" + c.value;
  }

  // ---------------------------------------------------------------------
  // Set-Cookie

  /** `[name, value]` of main.js:153; `value` is undefined when there is no '='. */
  datatype CookiePair = CookiePair(name: string, value: Option<string>)

  /** `cookieStr.split(';')[0].split('=')`, destructured into its first two elements. */
  function ParseSetCookie(header: string): CookiePair
  {
    var first := Split(header, ';')[0];
    var kv := Split(first, '=');
    CookiePair(kv[0], if |kv| >= 2 then Some(kv[1]) else None)
  }

  /** The cookies written into the main window's session (main.js:150-160); no header, no cookie. */
  function CookiesToSet(headers: Option<seq<string>>): (r: seq<CookiePair>)
    ensures headers.None? ==> r == []
    ensures headers.Some? ==> |r| == |headers.value|
    ensures headers.Some? ==> forall i :: 0 <= i < |r| ==> r[i] == ParseSetCookie(headers.value[i])
  {
    if headers.None? then [] else ParsedAll(headers.value)
  }

  function ParsedAll(hs: seq<string>): (r: seq<CookiePair>)
    ensures |r| == |hs|
    ensures forall i :: 0 <= i < |hs| ==> r[i] == ParseSetCookie(hs[i])
  {
    if hs == [] then [] else [ParseSetCookie(hs[0])] + ParsedAll(hs[1..])
  }

  /** Only the text before the first ';' is read: the attributes are ignored. */
  lemma AttributesIgnored(p: string, rest: string)
    requires ';' !in p
    ensures ParseSetCookie(p + ";" + rest) == ParseSetCookie(p)
  {
    IndexOfCharAfterFree(p, ';', rest);
    IndexOfCharAfterFree(p, ';', []);
    assert (p + ";" + rest)[..|p|] == p;
    assert p[..|p|] == p;
  }

  /** The first segment of the header without any further ';'. */
  lemma FirstSegmentNoSemicolon(p: string)
    requires ';' !in p
    ensures Split(p, ';')[0] == p
  {
    IndexOfCharAfterFree(p, ';', []);
    assert p[..|p|] == p;
  }

  /** A rendered cookie parses back to itself, when neither part holds ';' or '='. */
  lemma ParseRenderRoundTrip(c: Cookie, attributes: string)
    requires ';' !in c.name && '=' !in c.name && ';' !in c.value && '=' !in c.value
    ensures ParseSetCookie(Render(c) + ";" + attributes) == CookiePair(c.name, Some(c.value))
    ensures ParseSetCookie(Render(c)) == CookiePair(c.name, Some(c.value))
  {
    var p := Render(c);
    assert ';' !in p;
    AttributesIgnored(p, attributes);
    FirstSegmentNoSemicolon(p);
    assert Join([c.name, c.value], "=") == p;
    SplitJoin([c.name, c.value], '=');
  }

  /** A value holding '=' is cut at it. */
  lemma ValueTruncatedAtEquals(name: string, v1: string, v2: string)
    requires ';' !in name && '=' !in name && ';' !in v1 && '=' !in v1 && ';' !in v2 && '=' !in v2
    ensures ParseSetCookie(name + "=" + v1 + "=" + v2) == CookiePair(name, Some(v1))
  {
    var p := name + "=" + v1 + "=" + v2;
    assert ';' !in p;
    FirstSegmentNoSemicolon(p);
    assert [name, v1, v2][1..] == [v1, v2];
    assert Join([v1, v2], "=") == v1 + "=" + v2;
    assert Join([name, v1, v2], "=") == p;
    SplitJoin([name, v1, v2], '=');
  }

  /** Without '=' the whole first segment is the name and the value is undefined. */
  lemma NoEqualsNoValue(p: string)
    requires ';' !in p && '=' !in p
    ensures ParseSetCookie(p) == CookiePair(p, None)
  {
    FirstSegmentNoSemicolon(p);
    IndexOfCharAfterFree(p, '=', []);
    assert p[..|p|] == p;
  }

  // ---------------------------------------------------------------------
  // handleAuthCallback

  const CallbackPrefix := "http://localhost:8000/auth/callback"

  /** The query of a URL: after the first '?' and before the fragment. */
  function QueryOf(url: string): string
  {
    var beforeHash := url[..IndexOfChar(url, '#')];
    var q := IndexOfChar(beforeHash, '?');
    if q == |beforeHash| then "" else beforeHash[q + 1..]
  }

  /** A `name=value` pair of the query: the name ends at the first '='; the value is the rest. */
  function PairName(pair: string): string
  {
    pair[..IndexOfChar(pair, '=')]
  }

  function PairValue(pair: string): string
  {
    var i := IndexOfChar(pair, '=');
    if i == |pair| then "" else pair[i + 1..]
  }

  /** The value of the first pair named `key`. */
  function FirstValue(pairs: seq<string>, key: string): (r: Option<string>)
    ensures r.None? <==> forall i :: 0 <= i < |pairs| ==> PairName(pairs[i]) != key
    ensures r.Some? ==> exists i :: 0 <= i < |pairs| && PairName(pairs[i]) == key && r.value == PairValue(pairs[i])
                                    && forall j :: 0 <= j < i ==> PairName(pairs[j]) != key
  {
    if pairs == [] then None
    else if PairName(pairs[0]) == key then Some(PairValue(pairs[0]))
    else
      var r := FirstValue(pairs[1..], key);
      assert forall i :: 1 <= i < |pairs| ==> pairs[i] == pairs[1..][i - 1];
      if r.Some? then
        var i :| 0 <= i < |pairs[1..]| && PairName(pairs[1..][i]) == key && r.value == PairValue(pairs[1..][i])
                 && forall j :: 0 <= j < i ==> PairName(pairs[1..][j]) != key;
        assert PairName(pairs[i + 1]) == key && forall j :: 0 <= j < i + 1 ==> PairName(pairs[j]) != key;
        r
      else r
  }

  /** `new URL(url).searchParams.get(key)`, without percent-decoding. */
  function SearchParam(url: string, key: string): Option<string>
  {
    FirstValue(Split(QueryOf(url), '&'), key)
  }

  /** The request `handleAuthCallback` sends to the backend. */
  datatype CallbackRequest = CallbackRequest(code: string, state: Option<string>, cookieHeader: string)

  /** `handleAuthCallback` (main.js:125-140): a callback URL with a non-empty code is forwarded. */
  function HandleAuthCallback(url: string, cookies: seq<Cookie>): Option<CallbackRequest>
  {
    if !StartsWith(url, CallbackPrefix) then None
    else
      var code := SearchParam(url, "code");
      if code.None? || code.value == "" then None
      else Some(CallbackRequest(code.value, SearchParam(url, "state"), CookieHeader(cookies)))
  }

  /** The gate lets through exactly the URLs with the callback prefix and a non-empty code, and forwards the session cookies. */
  lemma CallbackGate(url: string, cookies: seq<Cookie>)
    ensures HandleAuthCallback(url, cookies).Some? <==>
      StartsWith(url, CallbackPrefix) && SearchParam(url, "code").Some? && SearchParam(url, "code").value != ""
    ensures HandleAuthCallback(url, cookies).Some? ==>
      HandleAuthCallback(url, cookies).value.code == SearchParam(url, "code").value
      && HandleAuthCallback(url, cookies).value.state == SearchParam(url, "state")
      && HandleAuthCallback(url, cookies).value.cookieHeader == CookieHeader(cookies)
  {
  }

  /**
   * The gate is a prefix test, not a path match: whatever follows the prefix
   * (".../auth/callback" itself, or ".../auth/callbackX"), a URL with a code passes.
   */
  lemma GateIsPrefixTest(rest: string, code: string, cookies: seq<Cookie>)
    requires '?' !in rest && '#' !in rest
    requires code != "" && '&' !in code && '#' !in code
    ensures HandleAuthCallback(CallbackPrefix + rest + "?code=" + code, cookies)
            == Some(CallbackRequest(code, None, CookieHeader(cookies)))
  {
    var base := CallbackPrefix + rest;
    var query := "code=" + code;
    assert CallbackPrefix + rest + "?code=" + code == base + "?" + query;
    assert StartsWith(base + "?" + query, CallbackPrefix) by {
      assert (base + "?" + query)[..|CallbackPrefix|] == CallbackPrefix;
    }
    QueryAfterMark(base, query);
    CodeOnlyPair(code);
  }

  /** The query of `base?query`, when the base holds no '?' and neither part a '#'. */
  lemma QueryAfterMark(base: string, query: string)
    requires '?' !in base && '#' !in base && '#' !in query
    ensures QueryOf(base + "?" + query) == query
  {
    var url := base + "?" + query;
    assert '#' !in url;
    IndexOfCharAfterFree(url, '#', []);
    assert url[..|url|] == url;
    IndexOfCharAfterFree(base, '?', query);
    assert url[|base| + 1..] == query;
  }

  /** The query "code=<code>" has exactly one pair, named "code". */
  lemma CodeOnlyPair(code: string)
    requires '&' !in code
    ensures FirstValue(Split("code=" + code, '&'), "code") == Some(code)
    ensures FirstValue(Split("code=" + code, '&'), "state") == None
  {
    var query := "code=" + code;
    WholeWhenNoSeparator(query, '&');
    CodePairParts(code);
    assert FirstValue([query], "code") == Some(PairValue(query));
  }

  /** A string without the separator splits into itself. */
  lemma WholeWhenNoSeparator(s: string, c: char)
    requires c !in s
    ensures Split(s, c) == [s]
  {
    IndexOfCharAfterFree(s, c, []);
    assert s[..|s|] == s;
  }

  lemma CodePairParts(code: string)
    ensures PairName("code=" + code) == "code" && PairValue("code=" + code) == code
  {
    assert "code=" + code == "code" + "=" + code;
    IndexOfCharAfterFree("code", '=', code);
  }

  /** Any other URL the auth window navigates to is ignored. */
  lemma OtherUrlsIgnored(url: string, cookies: seq<Cookie>)
    requires !StartsWith(url, CallbackPrefix)
    ensures HandleAuthCallback(url, cookies) == None
  {
  }

  /** A callback URL without a code, or with an empty one, is ignored. */
  lemma MissingCodeIgnored(url: string, cookies: seq<Cookie>)
    requires forall i :: 0 <= i < |Split(QueryOf(url), '&')| ==> PairName(Split(QueryOf(url), '&')[i]) != "code"
    ensures HandleAuthCallback(url, cookies) == None
  {
  }

  // ---------------------------------------------------------------------
  // The app:// protocol

  const AppScheme := "app://"

  /** `request.url.replace("app://", "")` (main.js:223). */
  function AppUrlToPath(url: string): string
  {
    ReplaceFirst(url, AppScheme, "")
  }

  /** A URL that starts with the scheme loses exactly that scheme, even if it occurs again later. */
  lemma LeadingSchemeRemoved(rest: string)
    ensures AppUrlToPath(AppScheme + rest) == rest
  {
    assert OccursAt(AppScheme + rest, AppScheme, 0);
  }

  /** Only the first occurrence goes: a later "app://" survives. */
  lemma OnlyFirstOccurrenceRemoved(a: string, b: string)
    ensures AppUrlToPath(AppScheme + a + AppScheme + b) == a + AppScheme + b
  {
    assert AppScheme + a + AppScheme + b == AppScheme + (a + AppScheme + b);
    LeadingSchemeRemoved(a + AppScheme + b);
  }

  /** Wherever the scheme first occurs, it is cut out and everything around it is kept. */
  lemma FirstOccurrenceCut(url: string, i: nat)
    requires OccursAt(url, AppScheme, i)
    requires forall j :: 0 <= j < i ==> !OccursAt(url, AppScheme, j)
    ensures AppUrlToPath(url) == url[..i] + url[i + |AppScheme|..]
    ensures |AppUrlToPath(url)| == |url| - |AppScheme|
  {
    assert IndexOf(url, AppScheme) == Some(i);
  }

  /** A URL without the scheme is passed on unchanged. */
  lemma NoSchemeUnchanged(url: string)
    requires forall j :: 0 <= j <= |url| ==> !OccursAt(url, AppScheme, j)
    ensures AppUrlToPath(url) == url
  {
  }
}
