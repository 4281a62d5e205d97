/** `resolve_link`: turning an `href` found in a directory listing into an
    absolute URL, against the URL of the listing. Absolute URLs are
    recognised by the regular expression `^(([a-zA-Z_-]+)://([^/]+))(/.*)?$`,
    with Python's reading of `.` (any character but a newline) and of `$`
    (the end, or just before a newline that ends the text). */
module Links {
  import opened Wrappers

  predicate IsSchemeChar(c: char) {
    'a' <= c <= 'z' || 'A' <= c <= 'Z' || c == '_' || c == '-'
  }

  /** The length of the run of characters from `i` on that satisfy the scheme class. */
  function SchemeEnd(s: string, i: nat): (r: nat)
    requires i <= |s|
    ensures i <= r <= |s|
    ensures forall k :: i <= k < r ==> IsSchemeChar(s[k])
    ensures r < |s| ==> !IsSchemeChar(s[r])
    decreases |s| - i
  {
    if i < |s| && IsSchemeChar(s[i]) then SchemeEnd(s, i + 1) else i
  }

  /** The end of the run of characters other than `'/'` from `i` on. */
  function HostEnd(s: string, i: nat): (r: nat)
    requires i <= |s|
    ensures i <= r <= |s|
    ensures forall k :: i <= k < r ==> s[k] != '/'
    ensures r < |s| ==> s[r] == '/'
    decreases |s| - i
  {
    if i < |s| && s[i] != '/' then HostEnd(s, i + 1) else i
  }

  /** The position of the first newline from `i` on, or the end. */
  function LineEnd(s: string, i: nat): (r: nat)
    requires i <= |s|
    ensures i <= r <= |s|
    ensures forall k :: i <= k < r ==> s[k] != '\n'
    ensures r < |s| ==> s[r] == '\n'
    decreases |s| - i
  {
    if i < |s| && s[i] != '\n' then LineEnd(s, i + 1) else i
  }

  lemma SchemeEndPast(s: string, i: nat, j: nat)
    requires i <= j <= |s| && forall k :: i <= k < j ==> IsSchemeChar(s[k])
    ensures SchemeEnd(s, i) >= j
    decreases j - i
  {
    if i < j { SchemeEndPast(s, i + 1, j); }
  }

  lemma HostEndPast(s: string, i: nat, j: nat)
    requires i <= j <= |s| && forall k :: i <= k < j ==> s[k] != '/'
    ensures HostEnd(s, i) >= j
    decreases j - i
  {
    if i < j { HostEndPast(s, i + 1, j); }
  }

  lemma LineEndPast(s: string, i: nat, j: nat)
    requires i <= j <= |s| && forall k :: i <= k < j ==> s[k] != '\n'
    ensures LineEnd(s, i) >= j
    decreases j - i
  {
    if i < j { LineEndPast(s, i + 1, j); }
  }

  /** The groups of a match: group 1, `scheme://host`, and group 4, the path, when it took part. */
  datatype UrlMatch = UrlMatch(origin: string, path: Option<string>)

  /** `re_url.match(s)` */
  function MatchUrl(s: string): (r: Option<UrlMatch>)
    ensures r.Some? ==> r.value.origin <= s
    ensures r.Some? && r.value.path.None? ==> r.value.origin == s
    ensures r.Some? && r.value.path.Some? ==>
      && r.value.path.value != []
      && r.value.path.value[0] == '/'
      && '\n' !in r.value.path.value
      && (s == r.value.origin + r.value.path.value || s == r.value.origin + r.value.path.value + "\n")
  {
    var a := SchemeEnd(s, 0);
    if a == 0 || !("://" <= s[a..]) then None
    else
      var e := HostEnd(s, a + 3);
      if e == a + 3 then None
      else if e == |s| then
        assert s[..e] == s;
        Some(UrlMatch(s, None))
      else
        var p := LineEnd(s, e);
        var path := s[e..p];
        assert forall k :: 0 <= k < |path| ==> path[k] == s[e + k];
        if p == |s| then
          assert s == s[..e] + path;
          Some(UrlMatch(s[..e], Some(path)))
        else if p == |s| - 1 then
          assert s == s[..e] + path + "\n";
          Some(UrlMatch(s[..e], Some(path)))
        else None
  }

  /** A scheme, `://`, a host and an optional path, none of them with a newline, match with those groups. */
  lemma MatchAbsolute(scheme: string, host: string, path: string)
    requires scheme != [] && forall k :: 0 <= k < |scheme| ==> IsSchemeChar(scheme[k])
    requires host != [] && '/' !in host
    requires path == [] || (path[0] == '/' && '\n' !in path)
    ensures MatchUrl(scheme + "://" + host + path)
         == Some(UrlMatch(scheme + "://" + host, if path == [] then None else Some(path)))
  {
    var s := scheme + "://" + host + path;
    var h := |scheme| + 3;
    var e := h + |host|;
    SchemeOf(s, scheme);
    HostOf(s, h, host, path);
    assert s[..e] == scheme + "://" + host;
    if path != [] {
      PathOf(s, e, path);
      assert s[e..|s|] == path;
      assert MatchUrl(s) == Some(UrlMatch(s[..e], Some(s[e..|s|])));
    } else {
      assert s == scheme + "://" + host;
      assert MatchUrl(s) == Some(UrlMatch(s, None));
    }
  }

  lemma SchemeOf(s: string, scheme: string)
    requires scheme != [] && forall k :: 0 <= k < |scheme| ==> IsSchemeChar(scheme[k])
    requires scheme + "://" <= s
    ensures SchemeEnd(s, 0) == |scheme| && "://" <= s[|scheme|..]
  {
    assert forall k :: 0 <= k < |scheme| ==> s[k] == scheme[k];
    assert s[|scheme|] == ':';
    SchemeEndPast(s, 0, |scheme|);
  }

  lemma HostOf(s: string, h: nat, host: string, path: string)
    requires '/' !in host && h <= |s| && s[h..] == host + path
    requires path == [] || path[0] == '/'
    ensures HostEnd(s, h) == h + |host|
  {
    assert forall k :: h <= k < h + |host| ==> s[k] == host[k - h];
    HostEndPast(s, h, h + |host|);
    if path != [] { assert s[h + |host|] == path[0]; }
  }

  lemma PathOf(s: string, e: nat, path: string)
    requires '\n' !in path && e <= |s| && s[e..] == path
    ensures LineEnd(s, e) == |s|
  {
    assert forall k :: e <= k < |s| ==> s[k] == path[k - e];
    LineEndPast(s, e, |s|);
  }

  /** `resolve_link(link, url)`. */
  function ResolveLink(link: string, url: string): (r: Result<string>)
    ensures r.Err? <==>
      && MatchUrl(link).None?
      && (link == [] || (link[0] == '/' && MatchUrl(url).None?) || (link[0] != '/' && url == []))
    ensures r.Err? ==> r.error == IndexError || r.error == AttributeError
    ensures r.Ok? && MatchUrl(link).Some? ==> r.value == link || r.value == link + "/"
    ensures r.Ok? && MatchUrl(link).None? ==> |link| <= |r.value| && r.value[|r.value| - |link|..] == link
  {
    match MatchUrl(link)
    case Some(m) => if m.path.None? then Ok(link + "/") else Ok(link)
    case None =>
      if |link| == 0 then Err(IndexError)
      else if link[0] == '/' then
        match MatchUrl(url)
        case Some(base) => Ok(base.origin + link)
        case None => Err(AttributeError)
      else if |url| == 0 then Err(IndexError)
      else if url[|url| - 1] == '/' then Ok(url + link)
      else Ok(url + "/" + link)
  }

  /** An absolute link: a bare origin gains a trailing slash; one with a path is left as it is. */
  lemma ResolveAbsolute(scheme: string, host: string, path: string, url: string)
    requires scheme != [] && forall k :: 0 <= k < |scheme| ==> IsSchemeChar(scheme[k])
    requires host != [] && '/' !in host
    requires path == [] || (path[0] == '/' && '\n' !in path)
    ensures path == [] ==> ResolveLink(scheme + "://" + host, url) == Ok(scheme + "://" + host + "/")
    ensures path != [] ==> ResolveLink(scheme + "://" + host + path, url) == Ok(scheme + "://" + host + path)
  {
    MatchAbsolute(scheme, host, path);
    if path == [] {
      assert scheme + "://" + host + path == scheme + "://" + host;
    }
  }

  /** A link from the root of the site keeps the listing's scheme and host. */
  lemma ResolveRooted(link: string, scheme: string, host: string, path: string)
    requires link != [] && link[0] == '/'
    requires scheme != [] && forall k :: 0 <= k < |scheme| ==> IsSchemeChar(scheme[k])
    requires host != [] && '/' !in host
    requires path == [] || (path[0] == '/' && '\n' !in path)
    ensures ResolveLink(link, scheme + "://" + host + path) == Ok(scheme + "://" + host + link)
  {
    MatchAbsolute(scheme, host, path);
    assert SchemeEnd(link, 0) == 0;
  }

  /** Any other link is appended to the listing's URL, with exactly one `'/'` between them. */
  lemma ResolveRelative(link: string, url: string)
    requires link != [] && link[0] != '/' && MatchUrl(link).None?
    requires url != []
    ensures var r := ResolveLink(link, url);
      && r.Ok?
      && (url[|url| - 1] == '/' ==> r.value == url + link)
      && (url[|url| - 1] != '/' ==> r.value == url + "/" + link)
  {
  }

  /** `ListingParser.__init__`: the listing's URL with a trailing `'/'`. */
  function ListingBase(url: string): (r: Result<string>)
    ensures url != [] ==> r.Ok? && r.value != [] && r.value[|r.value| - 1] == '/' && url <= r.value
  {
    if |url| == 0 then Err(IndexError)
    else if url[|url| - 1] != '/' then Ok(url + "/")
    else Ok(url)
  }

  /** `ListingParser.handle_starttag` on one `href`: empty ones are skipped. */
  function HandleHref(value: string, base: string): (r: Result<Option<string>>)
    ensures value == [] ==> r == Ok(None)
    ensures value != [] ==> (r.Ok? <==> ResolveLink(value, base).Ok?)
    ensures value != [] && r.Ok? ==> r.value == Some(ResolveLink(value, base).value)
  {
    if value == [] then Ok(None)
    else
      var link :- ResolveLink(value, base);
      Ok(Some(link))
  }

  /** The parser never hands `resolve_link` an empty link or a base without its
      trailing slash, so a relative link is simply appended to the base. */
  lemma ListingRelative(value: string, url: string)
    requires url != [] && value != [] && value[0] != '/' && MatchUrl(value).None?
    ensures var base := ListingBase(url).value;
      HandleHref(value, base) == Ok(Some(base + value))
  {
    var base := ListingBase(url).value;
    ResolveRelative(value, base);
  }

  /** An empty `href` never reaches `resolve_link`, so it cannot fail on one. */
  lemma ListingSkipsEmpty(url: string)
    ensures HandleHref("", url) == Ok(None)
  {
  }
}
