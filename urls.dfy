/**
 * The part of CPython's `urllib.parse` behind `urljoin(base, url)`: splitting a URL
 * into scheme, network location, path, parameters, query and fragment (`urlsplit`,
 * `urlparse`), putting the parts back together (`urlunsplit`, `urlunparse`), and
 * resolving a reference against a base with its `.` and `..` segments removed.
 */
module Urls {
  import opened Text

  // ---------------------------------------------------------------------------
  // Scheme tables of urllib.parse

  const UsesRelative: set<string> := {"", "ftp", "http", "gopher", "nntp", "imap", "wais", "file",
                                      "https", "shttp", "mms", "prospero", "rtsp", "rtsps", "rtspu",
                                      "sftp", "svn", "svn+ssh", "ws", "wss"}

  const UsesNetloc: set<string> := {"", "ftp", "http", "gopher", "nntp", "telnet", "imap", "wais",
                                    "file", "mms", "https", "shttp", "snews", "prospero", "rtsp",
                                    "rtsps", "rtspu", "rsync", "svn", "svn+ssh", "sftp", "nfs", "git",
                                    "git+ssh", "ws", "wss", "itms-services"}

  const UsesParams: set<string> := {"", "ftp", "hdl", "prospero", "http", "imap", "https", "shttp",
                                    "rtsp", "rtsps", "rtspu", "sip", "sips", "mms", "sftp", "tel"}

  /** The six parts `urlparse` returns. */
  datatype Parts = Parts(scheme: string, netloc: string, path: string, params: string,
                         query: string, fragment: string)

  // ---------------------------------------------------------------------------
  // Character helpers

  /** A C0 control character or space, which `urlsplit` strips from the front. */
  predicate IsC0OrSpace(c: char) { c <= ' ' }

  /** The characters `urlsplit` deletes wherever they occur. */
  predicate IsUnsafe(c: char) { c == '\t' || c == '\r' || c == '\n' }

  predicate NoUnsafe(s: string) {
    forall i :: 0 <= i < |s| ==> !IsUnsafe(s[i])
  }

  function LStripC0(s: string): (r: string)
    ensures r == [] || !IsC0OrSpace(r[0])
    ensures s == [] || !IsC0OrSpace(s[0]) ==> r == s
  {
    if s != [] && IsC0OrSpace(s[0]) then LStripC0(s[1..]) else s
  }

  function RemoveUnsafe(s: string): (r: string)
    decreases |s|
  {
    if s == [] then [] else (if IsUnsafe(s[0]) then [] else [s[0]]) + RemoveUnsafe(s[1..])
  }

  lemma {:induction false} RemoveUnsafeClean(s: string)
    requires NoUnsafe(s)
    ensures RemoveUnsafe(s) == s
    decreases |s|
  {
    if s != [] {
      RemoveUnsafeClean(s[1..]);
    }
  }

  predicate SchemeChar(c: char) {
    'a' <= c <= 'z' || 'A' <= c <= 'Z' || '0' <= c <= '9' || c == '+' || c == '-' || c == '.'
  }

  /** What `urlsplit` accepts as a scheme: a letter followed by letters, digits, `+`, `-` or `.`. */
  predicate ValidScheme(s: string) {
    s != [] && ('a' <= s[0] <= 'z' || 'A' <= s[0] <= 'Z') && forall k :: 0 <= k < |s| ==> SchemeChar(s[k])
  }

  /** The prefix of `s` before the first character of `stops`. */
  function TakeUntil(s: string, stops: set<char>): (r: string)
    ensures StartsWith(s, r)
    ensures forall i :: 0 <= i < |r| ==> r[i] !in stops
    ensures |r| < |s| ==> s[|r|] in stops
  {
    if s == [] || s[0] in stops then [] else [s[0]] + TakeUntil(s[1..], stops)
  }

  lemma {:induction false} TakeUntilNone(s: string, stops: set<char>)
    requires forall i :: 0 <= i < |s| ==> s[i] !in stops
    ensures TakeUntil(s, stops) == s
  {
    if s != [] {
      TakeUntilNone(s[1..], stops);
    }
  }

  function LastIndexOf(s: string, c: char): (i: nat)
    requires c in s
    ensures i < |s| && s[i] == c && c !in s[i + 1..]
  {
    if s[|s| - 1] == c then |s| - 1 else LastIndexOf(s[..|s| - 1], c)
  }

  /** `s.split(c, 1)` when `c` occurs in `s`; otherwise `s` and an empty remainder. */
  function SplitFirst(s: string, c: char): (r: (string, string))
    ensures c in s ==> s == r.0 + [c] + r.1 && c !in r.0
    ensures c !in s ==> r == (s, "")
  {
    if c in s then
      var i := IndexOf(s, c);
      assert s == s[..i] + [c] + s[i + 1..];
      (s[..i], s[i + 1..])
    else (s, "")
  }

  // ---------------------------------------------------------------------------
  // Splitting

  /** The scheme `urlsplit` finds before the first `:`, and the rest; the default when there is none. */
  function SplitScheme(url: string, default: string): (string, string) {
    if ':' in url && ValidScheme(url[..IndexOf(url, ':')]) then
      (Lower(url[..IndexOf(url, ':')]), url[IndexOf(url, ':') + 1..])
    else (default, url)
  }

  /** What ends a network location. */
  const NetlocEnd: set<char> := {'/', '?', '#'}

  /** The URL with its leading controls and spaces stripped and its tabs and line breaks deleted. */
  function Clean(url: string): string {
    RemoveUnsafe(LStripC0(url))
  }

  /** The network location after a leading `//`, up to the next `/`, `?` or `#`, and the rest. */
  function SplitNetloc(u: string): (string, string) {
    if StartsWith(u, "//") then
      var netloc := TakeUntil(u[2..], NetlocEnd);
      (netloc, u[2 + |netloc|..])
    else ("", u)
  }

  /** The path, the query after the first `?` and the fragment after the first `#`. */
  function SplitTail(u: string): (string, string, string) {
    var fr := SplitFirst(u, '#');
    var qr := SplitFirst(fr.0, '?');
    (qr.0, qr.1, fr.1)
  }

  /**
   * `urlsplit(url, scheme)`: strip leading controls and spaces, delete tabs and line
   * breaks, take the scheme, a network location after `//`, the fragment after the
   * first `#`, then the query after the first `?`.
   */
  function UrlSplit(url: string, scheme: string): Parts {
    var sr := SplitScheme(Clean(url), scheme);
    var nr := SplitNetloc(sr.1);
    var t := SplitTail(nr.1);
    Parts(sr.0, nr.0, t.0, "", t.1, t.2)
  }

  /** `_splitparams`: the parameters start at the first `;` of the last path segment. */
  function SplitParams(path: string): (string, string)
    requires ';' in path
  {
    if '/' in path then
      var i := LastIndexOf(path, '/');
      if ';' in path[i..] then
        var j := i + IndexOf(path[i..], ';');
        (path[..j], path[j + 1..])
      else (path, "")
    else SplitFirst(path, ';')
  }

  /** `urlparse(url, scheme)`: `urlsplit`, then the parameters for schemes that use them. */
  function UrlParse(url: string, scheme: string): Parts {
    var p := UrlSplit(url, scheme);
    if p.scheme in UsesParams && ';' in p.path then
      var sp := SplitParams(p.path);
      p.(path := sp.0, params := sp.1)
    else p
  }

  // ---------------------------------------------------------------------------
  // Putting back together

  /** `urlunsplit`: empty parts leave no separator behind. */
  function UrlUnsplit(scheme: string, netloc: string, url: string, query: string, fragment: string): string {
    var u1 :=
      if netloc != "" || (scheme != "" && scheme in UsesNetloc && !StartsWith(url, "//")) then
        "//" + netloc + (if url != "" && url[0] != '/' then "/" + url else url)
      else url;
    var u2 := if scheme != "" then scheme + ":" + u1 else u1;
    var u3 := if query != "" then u2 + "?" + query else u2;
    if fragment != "" then u3 + "#" + fragment else u3
  }

  /** `urlunparse`: the parameters go back after a `;`, then `urlunsplit`. */
  function UrlUnparse(p: Parts): string {
    UrlUnsplit(p.scheme, p.netloc, if p.params != "" then p.path + ";" + p.params else p.path,
               p.query, p.fragment)
  }

  // ---------------------------------------------------------------------------
  // Resolution

  /** One turn of `urljoin`'s loop over the segments: `..` pops, `.` is skipped, anything else is kept. */
  function ResolveStep(acc: seq<string>, seg: string): seq<string> {
    if seg == ".." then (if acc == [] then [] else acc[..|acc| - 1])
    else if seg == "." then acc
    else acc + [seg]
  }

  /** The loop's list after the given segments, starting from `acc`. */
  function ResolveFrom(acc: seq<string>, segs: seq<string>): seq<string>
    decreases |segs|
  {
    if segs == [] then acc else ResolveStep(ResolveFrom(acc, segs[..|segs| - 1]), segs[|segs| - 1])
  }

  function ResolveSegments(segs: seq<string>): seq<string> {
    ResolveFrom([], segs)
  }

  predicate IsDotSegment(seg: string) { seg == "." || seg == ".." }

  /** The resolved segments, with a trailing empty one when the last segment was `.` or `..`. */
  function RemoveDotSegments(segs: seq<string>): seq<string>
    requires segs != []
  {
    var r := ResolveSegments(segs);
    if IsDotSegment(segs[|segs| - 1]) then r + [""] else r
  }

  /** `filter(None, xs)`: the non-empty strings. */
  function NonEmptyOnly(xs: seq<string>): seq<string>
    decreases |xs|
  {
    if xs == [] then [] else (if xs[0] == "" then [] else [xs[0]]) + NonEmptyOnly(xs[1..])
  }

  /**
   * The segments `urljoin` resolves: the path's own for an absolute path; otherwise the
   * base's directory segments then the path's, with empty segments between the first
   * and the last dropped.
   */
  function MergeSegments(basePath: string, path: string): (r: seq<string>)
    ensures r != []
  {
    var bp := SplitOn(basePath, '/');
    var baseParts := if bp[|bp| - 1] != "" then bp[..|bp| - 1] else bp;
    if StartsWith(path, "/") then SplitOn(path, '/')
    else
      var s := baseParts + SplitOn(path, '/');
      if |s| >= 2 then [s[0]] + NonEmptyOnly(s[1..|s| - 1]) + [s[|s| - 1]] else s
  }

  /** The path `urljoin` builds: the resolved segments joined by `/`, or `/` when that is empty. */
  function JoinedPath(basePath: string, path: string): (r: string)
    ensures r != ""
  {
    var joined := Join(RemoveDotSegments(MergeSegments(basePath, path)), "/");
    if joined == "" then "/" else joined
  }

  /** `urljoin(base, url)`. */
  function UrlJoin(base: string, url: string): string {
    if base == "" then url
    else if url == "" then base
    else
      var b := UrlParse(base, "");
      var u := UrlParse(url, b.scheme);
      if u.scheme != b.scheme || u.scheme !in UsesRelative then url else JoinParts(b, u)
  }

  /** `urljoin` once the reference's scheme is the base's and allows relative references. */
  function JoinParts(b: Parts, u: Parts): string {
    if u.scheme in UsesNetloc && u.netloc != "" then UrlUnparse(u)
    else
      var netloc := if u.scheme in UsesNetloc then b.netloc else u.netloc;
      if u.path == "" && u.params == "" then
        UrlUnparse(Parts(u.scheme, netloc, b.path, b.params,
                         if u.query != "" then u.query else b.query, u.fragment))
      else
        UrlUnparse(Parts(u.scheme, netloc, JoinedPath(b.path, u.path), u.params, u.query, u.fragment))
  }

  // ---------------------------------------------------------------------------
  // Properties of resolution

  /** No `.` or `..` segment survives resolution. */
  lemma ResolvedHasNoDots(segs: seq<string>)
    ensures forall i :: 0 <= i < |ResolveSegments(segs)| ==> !IsDotSegment(ResolveSegments(segs)[i])
  {
    ResolvedFromHasNoDots([], segs);
  }

  lemma {:induction false} ResolvedFromHasNoDots(acc: seq<string>, segs: seq<string>)
    requires forall i :: 0 <= i < |acc| ==> !IsDotSegment(acc[i])
    ensures forall i :: 0 <= i < |ResolveFrom(acc, segs)| ==> !IsDotSegment(ResolveFrom(acc, segs)[i])
    decreases |segs|
  {
    if segs != [] {
      ResolvedFromHasNoDots(acc, segs[..|segs| - 1]);
    }
  }

  /** Resolution is a left fold: resolving `p + q` resolves `q` from where `p` left off. */
  lemma {:induction false} ResolveFromConcat(acc: seq<string>, p: seq<string>, q: seq<string>)
    ensures ResolveFrom(acc, p + q) == ResolveFrom(ResolveFrom(acc, p), q)
    decreases |q|
  {
    if q == [] {
      assert p + q == p;
    } else {
      assert (p + q)[..|p + q| - 1] == p + q[..|q| - 1];
      ResolveFromConcat(acc, p, q[..|q| - 1]);
    }
  }

  /** Nor after the trailing empty segment is added. */
  lemma DotSegmentsRemoved(segs: seq<string>)
    requires segs != []
    ensures forall i :: 0 <= i < |RemoveDotSegments(segs)| ==> !IsDotSegment(RemoveDotSegments(segs)[i])
  {
    ResolvedHasNoDots(segs);
  }

  /** Segments without `.` or `..` are kept as they are. */
  lemma PlainSegmentsKept(segs: seq<string>)
    requires forall i :: 0 <= i < |segs| ==> !IsDotSegment(segs[i])
    ensures ResolveSegments(segs) == segs
  {
    PlainFromKept(segs);
  }

  lemma {:induction false} PlainFromKept(segs: seq<string>)
    requires forall i :: 0 <= i < |segs| ==> !IsDotSegment(segs[i])
    ensures ResolveFrom([], segs) == segs
    decreases |segs|
  {
    if segs != [] {
      PlainFromKept(segs[..|segs| - 1]);
      assert segs[..|segs| - 1] + [segs[|segs| - 1]] == segs;
    }
  }

  /** `..` takes back the segment before it. */
  lemma ParentUndoesSegment(acc: seq<string>, seg: string, rest: seq<string>)
    requires !IsDotSegment(seg)
    ensures ResolveFrom(acc, [seg, ".."] + rest) == ResolveFrom(acc, rest)
  {
    ResolveFromConcat(acc, [seg, ".."], rest);
    assert [seg, ".."][..1] == [seg];
    assert [seg][..0] == [];
    assert ResolveFrom(acc, [seg]) == acc + [seg];
    assert (acc + [seg])[..|acc|] == acc;
  }

  // ---------------------------------------------------------------------------
  // Stages of a site-relative reference

  /** A reference starting with `/` keeps that `/` first once cleaned. */
  lemma CleanSlash(url: string)
    requires StartsWith(url, "/")
    ensures StartsWith(Clean(url), "/")
  {
    assert LStripC0(url) == url;
    assert RemoveUnsafe(url) == [url[0]] + RemoveUnsafe(url[1..]);
  }

  /** A reference without controls, spaces in front, tabs or line breaks is already clean. */
  lemma CleanKeeps(url: string)
    requires StartsWith(url, "/") && NoUnsafe(url)
    ensures Clean(url) == url
  {
    assert LStripC0(url) == url;
    RemoveUnsafeClean(url);
  }

  /** Text starting with `/` has no scheme, so it takes the default. */
  lemma NoSchemeBeforeSlash(u: string, scheme: string)
    requires StartsWith(u, "/")
    ensures SplitScheme(u, scheme) == (scheme, u)
  {
    if ':' in u {
      var i := IndexOf(u, ':');
      assert i > 0;
      assert u[..i][0] == '/';
    }
  }

  /** The path of text starting with `/` starts with `/`. */
  lemma TailSlash(u: string)
    requires StartsWith(u, "/")
    ensures StartsWith(SplitTail(u).0, "/")
  {
    var fr := SplitFirst(u, '#');
    assert fr.0 != [] && fr.0[0] == '/';
    var qr := SplitFirst(fr.0, '?');
    assert qr.0 != [] && qr.0[0] == '/';
  }

  /** Splitting off the parameters keeps a leading `/`. */
  lemma ParamsKeepLeadingSlash(path: string)
    requires ';' in path && StartsWith(path, "/")
    ensures StartsWith(SplitParams(path).0, "/")
  {
    assert path[0] == '/';
    var i := LastIndexOf(path, '/');
    if ';' in path[i..] {
      var j := i + IndexOf(path[i..], ';');
      assert path[j] == ';';
      assert j > 0;
    }
  }

  /**
   * A reference starting with `/` but not, once cleaned, with `//` takes the default
   * scheme, has no network location and an absolute path.
   */
  lemma ParseSiteRelative(href: string, scheme: string)
    requires StartsWith(href, "/") && !StartsWith(Clean(href), "//")
    ensures var u := UrlParse(href, scheme);
      u.scheme == scheme && u.netloc == "" && StartsWith(u.path, "/")
  {
    var c := Clean(href);
    CleanSlash(href);
    NoSchemeBeforeSlash(c, scheme);
    assert SplitNetloc(c) == ("", c);
    TailSlash(c);
    var p := UrlSplit(href, scheme);
    assert p.path == SplitTail(c).0;
    if p.scheme in UsesParams && ';' in p.path {
      ParamsKeepLeadingSlash(p.path);
    }
  }

  /** A plain absolute path, with no tab, line break, `?`, `#` or `;`, parses into itself alone. */
  lemma ParsePlainPath(href: string, scheme: string)
    requires StartsWith(href, "/") && !StartsWith(href, "//") && NoUnsafe(href)
    requires '?' !in href && '#' !in href && ';' !in href
    ensures UrlParse(href, scheme) == Parts(scheme, "", href, "", "", "")
  {
    CleanKeeps(href);
    NoSchemeBeforeSlash(href, scheme);
    assert SplitNetloc(href) == ("", href);
    assert SplitTail(href) == (href, "", "");
  }

  /** A reference with no network location and an absolute path keeps the base's host. */
  lemma JoinAbsolutePath(b: Parts, u: Parts)
    requires u.scheme in UsesNetloc && u.netloc == "" && StartsWith(u.path, "/")
    ensures JoinParts(b, u) ==
      UrlUnparse(Parts(u.scheme, b.netloc, JoinedPath(b.path, u.path), u.params, u.query, u.fragment))
  {
  }

  /** Reassembling with a scheme and a host gives `scheme://host/...`. */
  lemma UnparseWithHost(p: Parts)
    requires p.scheme != "" && p.netloc != "" && p.path != ""
    ensures StartsWith(UrlUnparse(p), p.scheme + "://" + p.netloc + "/")
  {
    var url := if p.params != "" then p.path + ";" + p.params else p.path;
    assert url != "";
    var fixed := if url[0] != '/' then "/" + url else url;
    var prefix := p.scheme + "://" + p.netloc + "/";
    var u2 := p.scheme + ":" + ("//" + p.netloc + fixed);
    assert UrlUnparse(p) == UrlUnsplit(p.scheme, p.netloc, url, p.query, p.fragment);
    assert u2 == prefix + fixed[1..];
    AppendedKeepsPrefix(u2, prefix, p.query, p.fragment);
  }

  /** A join against a base with a scheme is never empty. */
  lemma JoinNonEmpty(base: string, url: string)
    requires base != "" && url != "" && UrlParse(base, "").scheme != ""
    ensures UrlJoin(base, url) != ""
  {
    var b := UrlParse(base, "");
    var u := UrlParse(url, b.scheme);
    if u.scheme == b.scheme && u.scheme in UsesRelative {
      var p := if u.scheme in UsesNetloc && u.netloc != "" then u
        else
          var netloc := if u.scheme in UsesNetloc then b.netloc else u.netloc;
          if u.path == "" && u.params == "" then
            Parts(u.scheme, netloc, b.path, b.params, if u.query != "" then u.query else b.query, u.fragment)
          else Parts(u.scheme, netloc, JoinedPath(b.path, u.path), u.params, u.query, u.fragment);
      assert JoinParts(b, u) == UrlUnparse(p);
      UnparseWithScheme(p);
    }
  }

  /** Reassembling with a scheme gives `scheme:...`. */
  lemma UnparseWithScheme(p: Parts)
    requires p.scheme != ""
    ensures UrlUnparse(p) != ""
  {
    var url := if p.params != "" then p.path + ";" + p.params else p.path;
    var u1 :=
      if p.netloc != "" || (p.scheme != "" && p.scheme in UsesNetloc && !StartsWith(url, "//")) then
        "//" + p.netloc + (if url != "" && url[0] != '/' then "/" + url else url)
      else url;
    var u2 := p.scheme + ":" + u1;
    AppendedKeepsPrefix(u2, p.scheme + ":", p.query, p.fragment);
  }

  /** Appending the query and fragment keeps a prefix. */
  lemma AppendedKeepsPrefix(u: string, prefix: string, query: string, fragment: string)
    requires StartsWith(u, prefix)
    ensures var u3 := if query != "" then u + "?" + query else u;
      StartsWith(if fragment != "" then u3 + "#" + fragment else u3, prefix)
  {
    var u3 := if query != "" then u + "?" + query else u;
    assert u3[..|prefix|] == prefix;
    var u4 := if fragment != "" then u3 + "#" + fragment else u3;
    assert u4[..|prefix|] == prefix;
  }

  /** A path of plain segments resolves to itself. */
  lemma PlainPathKept(path: string)
    requires StartsWith(path, "/")
    requires forall i :: 0 <= i < |SplitOn(path, '/')| ==> !IsDotSegment(SplitOn(path, '/')[i])
    ensures JoinedPath("", path) == path
  {
    var segs := SplitOn(path, '/');
    assert MergeSegments("", path) == segs;
    PlainSegmentsKept(segs);
    JoinSplitOn(path, '/');
  }

  // ---------------------------------------------------------------------------
  // Joining to an origin `scheme://host`

  predicate NetlocText(host: string) {
    host != [] && NoUnsafe(host) && forall k :: 0 <= k < |host| ==> host[k] !in NetlocEnd
  }

  /** A lower-case scheme `urljoin` resolves relative references for, with a network location. */
  predicate JoinScheme(scheme: string) {
    ValidScheme(scheme) && Lower(scheme) == scheme && scheme in UsesRelative && scheme in UsesNetloc
  }

  /** `scheme://host` parses into that scheme, lower-cased, and that host, and nothing else. */
  lemma SplitOrigin(scheme: string, host: string)
    requires ValidScheme(scheme) && NetlocText(host)
    ensures UrlParse(scheme + "://" + host, "") == Parts(Lower(scheme), host, "", "", "", "")
  {
    OriginClean(scheme, host);
    OriginScheme(scheme, host);
    OriginNetloc(host);
    assert SplitTail("") == ("", "", "");
  }

  lemma OriginClean(scheme: string, host: string)
    requires ValidScheme(scheme) && NetlocText(host)
    ensures Clean(scheme + "://" + host) == scheme + "://" + host
  {
    var base := scheme + "://" + host;
    var n := |scheme|;
    assert NoUnsafe(base) by {
      forall k | 0 <= k < |base| ensures !IsUnsafe(base[k]) {
        if k < n { assert SchemeChar(scheme[k]); } else if k >= n + 3 { assert base[k] == host[k - n - 3]; }
      }
    }
    assert LStripC0(base) == base by {
      assert SchemeChar(scheme[0]);
    }
    RemoveUnsafeClean(base);
  }

  lemma OriginScheme(scheme: string, host: string)
    requires ValidScheme(scheme)
    ensures SplitScheme(scheme + "://" + host, "") == (Lower(scheme), "//" + host)
  {
    var base := scheme + "://" + host;
    var n := |scheme|;
    assert ':' !in scheme by {
      forall k | 0 <= k < n ensures scheme[k] != ':' {
        assert SchemeChar(scheme[k]);
      }
    }
    IndexOfAfter(scheme, ':', "//" + host);
    assert base == scheme + [':'] + ("//" + host);
    assert base[..n] == scheme;
    assert base[n + 1..] == "//" + host;
  }

  lemma OriginNetloc(host: string)
    requires NetlocText(host)
    ensures SplitNetloc("//" + host) == (host, "")
  {
    var u := "//" + host;
    assert StartsWith(u, "//");
    assert u[2..] == host;
    TakeUntilNone(host, NetlocEnd);
    assert u[2 + |host|..] == "";
  }

  /**
   * A site-relative reference (one that, once cleaned, starts with a single `/`) joined
   * to `scheme://host` stays on that host: the result starts with `scheme://host/`.
   */
  lemma SiteLinkStaysOnSite(scheme: string, host: string, href: string)
    requires JoinScheme(scheme) && NetlocText(host)
    requires StartsWith(href, "/") && !StartsWith(Clean(href), "//")
    ensures StartsWith(UrlJoin(scheme + "://" + host, href), scheme + "://" + host + "/")
  {
    SplitOrigin(scheme, host);
    var b := Parts(scheme, host, "", "", "", "");
    ParseSiteRelative(href, scheme);
    var u := UrlParse(href, scheme);
    assert UrlJoin(scheme + "://" + host, href) == JoinParts(b, u);
    JoinAbsolutePath(b, u);
    UnparseWithHost(Parts(scheme, host, JoinedPath("", u.path), u.params, u.query, u.fragment));
  }

  /**
   * A plain site-relative link, with one leading `/`, no tab or line break, no `?`, `#`
   * or `;` and no `.` or `..` segment, is joined to `scheme://host` unchanged.
   */
  lemma PlainSiteLink(scheme: string, host: string, href: string)
    requires JoinScheme(scheme) && NetlocText(host)
    requires StartsWith(href, "/") && !StartsWith(href, "//") && NoUnsafe(href)
    requires '?' !in href && '#' !in href && ';' !in href
    requires forall i :: 0 <= i < |SplitOn(href, '/')| ==> !IsDotSegment(SplitOn(href, '/')[i])
    ensures UrlJoin(scheme + "://" + host, href) == scheme + "://" + host + href
  {
    SplitOrigin(scheme, host);
    ParsePlainPath(href, scheme);
    assert UrlJoin(scheme + "://" + host, href) ==
      JoinParts(Parts(scheme, host, "", "", "", ""), Parts(scheme, "", href, "", "", ""));
    JoinPlainPath(scheme, host, href);
  }

  lemma JoinPlainPath(scheme: string, host: string, href: string)
    requires JoinScheme(scheme) && NetlocText(host) && StartsWith(href, "/")
    requires forall i :: 0 <= i < |SplitOn(href, '/')| ==> !IsDotSegment(SplitOn(href, '/')[i])
    ensures JoinParts(Parts(scheme, host, "", "", "", ""), Parts(scheme, "", href, "", "", "")) ==
      scheme + "://" + host + href
  {
    var b := Parts(scheme, host, "", "", "", "");
    var u := Parts(scheme, "", href, "", "", "");
    JoinAbsolutePath(b, u);
    PlainPathKept(href);
    UnparsePathWithHost(scheme, host, href);
  }

  lemma UnparsePathWithHost(scheme: string, host: string, path: string)
    requires scheme != "" && host != "" && StartsWith(path, "/")
    ensures UrlUnparse(Parts(scheme, host, path, "", "", "")) == scheme + "://" + host + path
  {
    assert UrlUnsplit(scheme, host, path, "", "") == scheme + ":" + ("//" + host + path);
    OriginConcat(scheme, host, path);
  }

  lemma OriginConcat(scheme: string, host: string, rest: string)
    ensures scheme + ":" + ("//" + host + rest) == scheme + "://" + host + rest
  {
  }

  /** `p` and `p` followed by an empty query or fragment mark parse alike. */
  lemma SameParse(p: string, c: char, scheme: string)
    requires c == '?' || c == '#'
    requires StartsWith(p, "/") && !StartsWith(p, "//") && NoUnsafe(p) && '#' !in p
    requires c == '?' ==> '?' !in p
    ensures UrlParse(p + [c], scheme) == UrlParse(p, scheme)
  {
    var q := p + [c];
    MarkedClean(p, c);
    CleanKeeps(p);
    CleanKeeps(q);
    NoSchemeBeforeSlash(p, scheme);
    NoSchemeBeforeSlash(q, scheme);
    assert SplitNetloc(p) == ("", p);
    assert SplitNetloc(q) == ("", q);
    TailDropsMark(p, c);
    assert UrlSplit(q, scheme) == UrlSplit(p, scheme);
  }

  lemma MarkedClean(p: string, c: char)
    requires c == '?' || c == '#'
    requires StartsWith(p, "/") && !StartsWith(p, "//") && NoUnsafe(p)
    ensures var q := p + [c]; StartsWith(q, "/") && !StartsWith(q, "//") && NoUnsafe(q)
  {
    var q := p + [c];
    forall k | 0 <= k < |q| ensures !IsUnsafe(q[k]) {
      if k < |p| { assert q[k] == p[k]; }
    }
    if |p| >= 2 { assert q[..2] == p[..2]; } else { assert q[1] == c; }
  }

  lemma TailDropsMark(p: string, c: char)
    requires c == '?' || c == '#'
    requires '#' !in p && (c == '?' ==> '?' !in p)
    ensures SplitTail(p + [c]) == SplitTail(p)
  {
    var q := p + [c];
    IndexOfAfter(p, c, "");
    assert q == p + [c] + "";
  }

  /** A trailing empty query is dropped: `p?` joins as `p` does. */
  lemma EmptyQueryDropped(base: string, p: string)
    requires base != "" && UrlParse(base, "").scheme in UsesRelative
    requires StartsWith(p, "/") && !StartsWith(p, "//") && NoUnsafe(p) && '?' !in p && '#' !in p
    ensures UrlJoin(base, p + "?") == UrlJoin(base, p)
  {
    SameParse(p, '?', UrlParse(base, "").scheme);
    CleanKeeps(p);
    ParseSiteRelative(p, UrlParse(base, "").scheme);
  }

  /** A trailing empty fragment is dropped: `p#` joins as `p` does. */
  lemma EmptyFragmentDropped(base: string, p: string)
    requires base != "" && UrlParse(base, "").scheme in UsesRelative
    requires StartsWith(p, "/") && !StartsWith(p, "//") && NoUnsafe(p) && '#' !in p
    ensures UrlJoin(base, p + "#") == UrlJoin(base, p)
  {
    SameParse(p, '#', UrlParse(base, "").scheme);
    CleanKeeps(p);
    ParseSiteRelative(p, UrlParse(base, "").scheme);
  }

  /** hirebase.org's origin parses into the scheme `https` and the host `hirebase.org`. */
  lemma HirebaseOrigin()
    ensures UrlParse("https://hirebase.org", "") == Parts("https", "hirebase.org", "", "", "", "")
    ensures JoinScheme("https") && NetlocText("hirebase.org")
    ensures "https" + "://" + "hirebase.org" == "https://hirebase.org"
  {
    HttpsScheme();
    HirebaseHost();
    assert "https" + "://" + "hirebase.org" == "https://hirebase.org";
    SplitOrigin("https", "hirebase.org");
  }

  /** `https` is a lower-case scheme that joins relative references with a host. */
  lemma HttpsScheme()
    ensures JoinScheme("https")
  {
    var scheme := "https";
    forall k | 0 <= k < |scheme| ensures SchemeChar(scheme[k]) {}
    forall i | 0 <= i < |scheme| ensures Lower(scheme)[i] == scheme[i] {}
  }

  /** `hirebase.org` is a network location. */
  lemma HirebaseHost()
    ensures NetlocText("hirebase.org")
  {
    var host := "hirebase.org";
    forall k | 0 <= k < |host| ensures host[k] !in NetlocEnd && !IsUnsafe(host[k]) {}
  }

  /**
   * A `..` takes back the segment before it: for a base whose scheme resolves relative
   * references with a host, `/a/../rest` joins as `/rest` does (so `/jobs/../123` on
   * hirebase.org gives `https://hirebase.org/123`).
   */
  lemma ParentSegmentCancels(base: string, a: string, rest: string)
    requires base != ""
    requires UrlParse(base, "").scheme in UsesRelative && UrlParse(base, "").scheme in UsesNetloc
    requires PlainText(a) && a != "" && '/' !in a && !IsDotSegment(a)
    requires PlainText(rest) && !StartsWith(rest, "/")
    ensures UrlJoin(base, "/" + a + "/../" + rest) == UrlJoin(base, "/" + rest)
  {
    var b := UrlParse(base, "");
    var long := "/" + a + "/../" + rest;
    var short := "/" + rest;
    ParentHrefsPlain(a, rest);
    ParsePlainPath(long, b.scheme);
    ParsePlainPath(short, b.scheme);
    JoinAbsolutePath(b, Parts(b.scheme, "", long, "", "", ""));
    JoinAbsolutePath(b, Parts(b.scheme, "", short, "", "", ""));
    ParentPathsResolveAlike(b.path, a, rest);
  }

  /** Both references of `ParentSegmentCancels` are plain absolute paths. */
  lemma ParentHrefsPlain(a: string, rest: string)
    requires PlainText(a) && a != "" && '/' !in a && PlainText(rest) && !StartsWith(rest, "/")
    ensures var long := "/" + a + "/../" + rest;
      StartsWith(long, "/") && !StartsWith(long, "//") && PlainText(long)
    ensures var short := "/" + rest;
      StartsWith(short, "/") && !StartsWith(short, "//") && PlainText(short)
  {
    var long := "/" + a + "/../" + rest;
    var short := "/" + rest;
    PlainLiterals();
    PlainAppend("/", a);
    PlainAppend("/" + a, "/../");
    PlainAppend("/" + a + "/../", rest);
    PlainAppend("/", rest);
    assert long[1] == a[0];
    if |rest| > 0 { assert short[1] == rest[0]; }
  }

  /** `/a/../rest` and `/rest` resolve to the same path. */
  lemma ParentPathsResolveAlike(basePath: string, a: string, rest: string)
    requires '/' !in a && !IsDotSegment(a)
    ensures JoinedPath(basePath, "/" + a + "/../" + rest) == JoinedPath(basePath, "/" + rest)
  {
    var r := SplitOn(rest, '/');
    var ls := SplitOn("/" + a + "/../" + rest, '/');
    var ss := SplitOn("/" + rest, '/');
    ParentPathSegments(a, rest);
    SplitOnSlashPrefix(rest);
    assert ls == ["", a, ".."] + r;
    assert ss == [""] + r;
    ParentSegmentsResolveAlike(a, r);
    assert MergeSegments(basePath, "/" + a + "/../" + rest) == ls;
    assert MergeSegments(basePath, "/" + rest) == ss;
  }

  /** The segments of `/a/../rest`. */
  lemma ParentPathSegments(a: string, rest: string)
    requires '/' !in a
    ensures SplitOn("/" + a + "/../" + rest, '/') == ["", a, ".."] + SplitOn(rest, '/')
  {
    var dots := ".." + "/" + rest;
    var r := SplitOn(rest, '/');
    ParentPathFirst(a, rest);
    SplitOnSegment(a, dots);
    DotsSegment(rest);
    assert [""] + ([a] + ([".."] + r)) == ["", a, ".."] + r;
  }

  lemma ParentPathFirst(a: string, rest: string)
    ensures SplitOn("/" + a + "/../" + rest, '/') == [""] + SplitOn(a + "/" + (".." + "/" + rest), '/')
  {
    ParentRegroup(a, rest);
    SplitOnSlashPrefix(a + "/" + (".." + "/" + rest));
  }

  lemma DotsSegment(rest: string)
    ensures SplitOn(".." + "/" + rest, '/') == [".."] + SplitOn(rest, '/')
  {
    SplitOnSegment("..", rest);
  }

  lemma ParentRegroup(a: string, rest: string)
    ensures "/" + a + "/../" + rest == "/" + (a + "/" + (".." + "/" + rest))
  {
    assert "/../" == "/" + (".." + "/");
  }

  /** A segment followed by `..` cancels, whatever comes after. */
  lemma ParentSegmentsResolveAlike(a: string, r: seq<string>)
    requires !IsDotSegment(a) && r != []
    ensures RemoveDotSegments(["", a, ".."] + r) == RemoveDotSegments([""] + r)
  {
    ResolveFromConcat([], [""], [a, ".."] + r);
    assert [""] + ([a, ".."] + r) == ["", a, ".."] + r;
    ParentUndoesSegment(ResolveFrom([], [""]), a, r);
    ResolveFromConcat([], [""], r);
    var ls := ["", a, ".."] + r;
    var ss := [""] + r;
    assert ls[|ls| - 1] == r[|r| - 1];
    assert ss[|ss| - 1] == r[|r| - 1];
  }

  /** Text with no tab, line break, `?`, `#` or `;`. */
  predicate PlainText(s: string) {
    NoUnsafe(s) && '?' !in s && '#' !in s && ';' !in s
  }

  lemma PlainAppend(x: string, y: string)
    requires PlainText(x) && PlainText(y)
    ensures PlainText(x + y)
  {
    var t := x + y;
    forall k | 0 <= k < |t| ensures !IsUnsafe(t[k]) {
      if k < |x| { assert t[k] == x[k]; } else { assert t[k] == y[k - |x|]; }
    }
  }

  lemma PlainLiterals()
    ensures PlainText("/") && PlainText("/../")
  {
    var s1 := "/";
    var s2 := "/../";
    forall k | 0 <= k < |s1| ensures !IsUnsafe(s1[k]) {}
    forall k | 0 <= k < |s2| ensures !IsUnsafe(s2[k]) {}
  }

  /** Splitting `/s` on `/` gives an empty first piece, then the pieces of `s`. */
  lemma SplitOnSlashPrefix(s: string)
    ensures SplitOn("/" + s, '/') == [""] + SplitOn(s, '/')
  {
    var t := "/" + s;
    assert IndexOf(t, '/') == 0;
    assert t[1..] == s;
  }

  /** Splitting `a/s`, for `a` without `/`, gives `a`, then the pieces of `s`. */
  lemma SplitOnSegment(a: string, s: string)
    requires '/' !in a
    ensures SplitOn(a + "/" + s, '/') == [a] + SplitOn(s, '/')
  {
    IndexOfAfter(a, '/', s);
    var t := a + "/" + s;
    assert t == a + ['/'] + s;
    assert t[..|a|] == a && t[|a| + 1..] == s;
  }

  lemma ParseBareSlashes(scheme: string)
    ensures UrlParse("//", scheme) == Parts(scheme, "", "", "", "", "")
  {
    var href := "//";
    assert NoUnsafe(href) by {
      forall k | 0 <= k < |href| ensures !IsUnsafe(href[k]) {}
    }
    CleanKeeps(href);
    NoSchemeBeforeSlash(href, scheme);
    assert href[2..] == "";
    assert SplitNetloc(href) == ("", "");
    assert SplitTail("") == ("", "", "");
  }

  /** A bare `//` names an empty network location, so for `scheme://host` the join is the base. */
  lemma BareSlashesJoinToBase(scheme: string, host: string)
    requires JoinScheme(scheme) && NetlocText(host)
    ensures UrlJoin(scheme + "://" + host, "//") == scheme + "://" + host
  {
    SplitOrigin(scheme, host);
    var href := "//";
    ParseBareSlashes(scheme);
    var b := Parts(scheme, host, "", "", "", "");
    assert UrlJoin(scheme + "://" + host, href) == JoinParts(b, Parts(scheme, "", "", "", "", ""));
    OriginConcat(scheme, host, "");
  }
}
