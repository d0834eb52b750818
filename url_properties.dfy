/** What `normalize_url` guarantees, proved over the model in UrlUtils. */
module UrlProperties {
  import opened Types
  import opened UrlUtils

  // ---------------------------------------------------------------------
  // Lower-casing and stripping
  // ---------------------------------------------------------------------

  lemma LowerOfLowercase(s: string)
    requires HasNoUpper(s)
    ensures Lower(s) == s
  {
  }

  lemma LowerIdempotent(s: string)
    ensures Lower(Lower(s)) == Lower(s)
  {
    forall i | 0 <= i < |s| ensures Lower(Lower(s))[i] == Lower(s)[i] { LowerCharFacts(s[i]); }
  }

  lemma LowerAppend(a: string, b: string)
    ensures Lower(a + b) == Lower(a) + Lower(b)
  {
  }

  lemma LowerSlice(s: string, i: nat, j: nat)
    requires i <= j <= |s|
    ensures Lower(s)[i..j] == Lower(s[i..j])
  {
  }

  /** Characters that are not letters sit at the same places in Lower(s). */
  lemma LowerKeepsNonLetter(s: string, k: nat, c: char)
    requires k < |s|
    requires !IsAsciiLetter(c)
    ensures (Lower(s)[k] == c) == (s[k] == c)
  {
    LowerCharFacts(s[k]);
  }

  lemma IndexOfLower(s: string, c: char)
    requires !IsAsciiLetter(c)
    ensures IndexOf(Lower(s), c) == IndexOf(s, c)
  {
    var r := IndexOf(s, c);
    forall k | 0 <= k < r ensures Lower(s)[k] != c { LowerKeepsNonLetter(s, k, c); }
    if r < |s| { LowerKeepsNonLetter(s, r, c); }
    IndexOfIs(Lower(s), c, r);
  }

  lemma IndexOfAnyLower(s: string, cs: set<char>)
    requires forall c :: c in cs ==> !IsAsciiLetter(c)
    ensures IndexOfAny(Lower(s), cs) == IndexOfAny(s, cs)
  {
    var r := IndexOfAny(s, cs);
    forall k | 0 <= k < |s| ensures (Lower(s)[k] in cs) == (s[k] in cs) { LowerCharFacts(s[k]); }
    IndexOfAnyIs(Lower(s), cs, r);
  }

  lemma LastIndexOfLower(s: string, c: char)
    requires !IsAsciiLetter(c)
    ensures LastIndexOf(Lower(s), c) == LastIndexOf(s, c)
  {
    var r := LastIndexOf(s, c);
    forall k | r < k < |s| ensures Lower(s)[k] != c { LowerKeepsNonLetter(s, k, c); }
    if 0 <= r { LowerKeepsNonLetter(s, r, c); }
    LastIndexOfIs(Lower(s), c, r);
  }

  lemma InLower(s: string, c: char)
    requires !IsAsciiLetter(c)
    ensures (c in Lower(s)) == (c in s)
  {
    if c in s {
      var k :| 0 <= k < |s| && s[k] == c;
      LowerKeepsNonLetter(s, k, c);
    }
    if c in Lower(s) {
      var k :| 0 <= k < |s| && Lower(s)[k] == c;
      LowerKeepsNonLetter(s, k, c);
    }
  }

  lemma RStripLower(s: string)
    ensures RStrip(Lower(s), '/') == Lower(RStrip(s, '/'))
  {
    var r := RStrip(s, '/');
    var q := RStrip(Lower(s), '/');
    forall k | 0 <= k < |s| ensures (Lower(s)[k] == '/') == (s[k] == '/') {
      LowerKeepsNonLetter(s, k, '/');
    }
    assert |q| == |r|;
    assert q == Lower(s)[..|r|] == Lower(r);
  }

  /** Appending slashes does not change what `rstrip('/')` returns. */
  lemma {:induction false} RStripSlashes(s: string, t: string)
    requires forall k :: 0 <= k < |t| ==> t[k] == '/'
    ensures RStrip(s + t, '/') == RStrip(s, '/')
  {
    if t != [] {
      var n := |t| - 1;
      assert (s + t)[..|s + t| - 1] == s + t[..n];
      RStripSlashes(s, t[..n]);
    } else {
      assert s + t == s;
    }
  }

  /** Stripping only removes the slashes after `prefix` when `prefix` itself
      ends in something other than a slash. */
  lemma RStripAfter(prefix: string, rest: string)
    requires prefix != [] && prefix[|prefix| - 1] != '/'
    ensures RStrip(prefix + rest, '/') == prefix + RStrip(rest, '/')
  {
    var r := RStrip(rest, '/');
    var q := RStrip(prefix + rest, '/');
    assert (prefix + rest)[|prefix| - 1] != '/';
    assert |prefix| <= |q|;
    assert |prefix| + |r| <= |q| by {
      if |r| > 0 { assert (prefix + rest)[|prefix| + |r| - 1] == rest[|r| - 1]; }
    }
    assert |q| <= |prefix| + |r| by {
      if |q| > |prefix| { assert (prefix + rest)[|q| - 1] == rest[|q| - 1 - |prefix|]; }
    }
    assert q == (prefix + rest)[..|prefix| + |r|] == prefix + r;
  }

  // ---------------------------------------------------------------------
  // urlparse on lower-cased input
  // ---------------------------------------------------------------------

  function LowerParsed(p: ParsedUrl): ParsedUrl
  {
    ParsedUrl(Lower(p.scheme), Lower(p.netloc), Lower(p.path), Lower(p.params),
              Lower(p.query), Lower(p.fragment))
  }

  lemma SplitSchemeLower(url: string)
    ensures SplitScheme(Lower(url)) == (Lower(SplitScheme(url).0), Lower(SplitScheme(url).1))
  {
    var i := IndexOf(url, ':');
    IndexOfLower(url, ':');
    var L := Lower(url);
    var ok := 0 < i < |url| && IsAsciiLetter(url[0]) && forall k :: 0 <= k < i ==> IsSchemeChar(url[k]);
    if 0 < i < |url| {
      LowerCharFacts(url[0]);
      forall k | 0 <= k < i ensures IsSchemeChar(L[k]) == IsSchemeChar(url[k]) { LowerCharFacts(url[k]); }
    }
    if ok {
      LowerSlice(url, 0, i);
      LowerIdempotent(url[..i]);
      LowerSlice(url, i + 1, |url|);
      assert L[i + 1..] == L[i + 1..|url|];
      assert url[i + 1..] == url[i + 1..|url|];
    } else {
      LowerIdempotent("");
    }
  }

  lemma SplitNetlocLower(rest: string)
    ensures SplitNetloc(Lower(rest)) == (Lower(SplitNetloc(rest).0), Lower(SplitNetloc(rest).1))
  {
    var L := Lower(rest);
    if |rest| >= 2 {
      LowerSlice(rest, 0, 2);
      LowerKeepsNonLetter(rest, 0, '/');
      LowerKeepsNonLetter(rest, 1, '/');
      assert (L[..2] == "//") == (rest[..2] == "//");
    }
    if |rest| >= 2 && rest[..2] == "//" {
      LowerSlice(rest, 2, |rest|);
      assert L[2..] == L[2..|rest|] && rest[2..] == rest[2..|rest|];
      IndexOfAnyLower(rest[2..], NetlocEnd);
      var d := 2 + IndexOfAny(rest[2..], NetlocEnd);
      LowerSlice(rest, 2, d);
      LowerSlice(rest, d, |rest|);
      assert L[d..] == L[d..|rest|] && rest[d..] == rest[d..|rest|];
    }
  }

  lemma SplitAtLower(s: string, c: char)
    requires !IsAsciiLetter(c)
    ensures SplitAt(Lower(s), c) == (Lower(SplitAt(s, c).0), Lower(SplitAt(s, c).1))
  {
    IndexOfLower(s, c);
    var i := IndexOf(s, c);
    if i < |s| {
      LowerSlice(s, 0, i);
      LowerSlice(s, i + 1, |s|);
      assert Lower(s)[i + 1..] == Lower(s)[i + 1..|s|] && s[i + 1..] == s[i + 1..|s|];
    } else {
      assert Lower("") == "";
    }
  }

  lemma ParamsStartLower(path: string)
    ensures ParamsStart(Lower(path)) == ParamsStart(path)
  {
    var L := Lower(path);
    LastIndexOfLower(path, '/');
    var slash := LastIndexOf(path, '/');
    if 0 <= slash {
      LowerSlice(path, slash, |path|);
      assert L[slash..] == L[slash..|path|] && path[slash..] == path[slash..|path|];
      IndexOfLower(path[slash..], ';');
    } else {
      IndexOfLower(path, ';');
    }
  }

  lemma SplitParamsLower(path: string)
    ensures SplitParams(Lower(path)) == (Lower(SplitParams(path).0), Lower(SplitParams(path).1))
  {
    ParamsStartLower(path);
    var i := ParamsStart(path);
    if i < |path| {
      SplitParamsLowerAt(path, i);
    } else {
      SplitParamsLowerNone(path);
    }
  }

  lemma SplitParamsLowerNone(path: string)
    requires ParamsStart(path) == |path| && ParamsStart(Lower(path)) == |path|
    ensures SplitParams(Lower(path)) == (Lower(SplitParams(path).0), Lower(SplitParams(path).1))
  {
    assert Lower("") == "";
  }

  lemma SplitParamsLowerAt(path: string, i: nat)
    requires i < |path| && ParamsStart(path) == i && ParamsStart(Lower(path)) == i
    ensures SplitParams(Lower(path)) == (Lower(path[..i]), Lower(path[i + 1..]))
  {
    var L := Lower(path);
    assert SplitParams(L) == (L[..i], L[i + 1..]);
    LowerPrefix(path, i);
    LowerSuffix(path, i + 1);
  }

  lemma LowerPrefix(s: string, i: nat)
    requires i <= |s|
    ensures Lower(s)[..i] == Lower(s[..i])
  {
  }

  lemma LowerSuffix(s: string, i: nat)
    requires i <= |s|
    ensures Lower(s)[i..] == Lower(s[i..])
  {
  }

  /** `urlparse` commutes with lower-casing: upper-case letters never decide
      where a URL is split, and the scheme comes out lower-cased either way. */
  lemma UrlParseLower(url: string)
    ensures UrlParse(Lower(url)).Some? == UrlParse(url).Some?
    ensures UrlParse(url).Some? ==> UrlParse(Lower(url)).value == LowerParsed(UrlParse(url).value)
  {
    var (scheme, rest) := SplitScheme(url);
    SplitSchemeLower(url);
    var (netloc, rest1) := SplitNetloc(rest);
    SplitNetlocLower(rest);
    InLower(netloc, '[');
    InLower(netloc, ']');
    if !UnbalancedBrackets(netloc) {
      var (rest2, fragment) := SplitAt(rest1, '#');
      SplitAtLower(rest1, '#');
      var (rest3, query) := SplitAt(rest2, '?');
      SplitAtLower(rest2, '?');
      LowerOfSchemeIsScheme(url);
      if scheme in UsesParams {
        SplitParamsLower(rest3);
      } else {
        assert Lower("") == "";
      }
    }
  }

  lemma LowerOfSchemeIsScheme(url: string)
    ensures Lower(SplitScheme(url).0) == SplitScheme(url).0
  {
    var i := IndexOf(url, ':');
    if 0 < i < |url| && IsAsciiLetter(url[0]) && forall k :: 0 <= k < i ==> IsSchemeChar(url[k]) {
      LowerIdempotent(url[..i]);
    }
  }

  /** Letter case in the input never matters: lower-casing a URL first gives
      the same normal form (or the same failure). */
  lemma NormalizeIgnoresCase(url: string)
    ensures NormalizeUrl(Lower(url)) == NormalizeUrl(url)
  {
    UrlParseLower(url);
    if UrlParse(url).Some? {
      var p := UrlParse(url).value;
      LowerOfSchemeIsScheme(url);
      assert Lower(p.scheme) == p.scheme;
      var j := p.scheme + "://" + p.netloc + p.path;
      LowerAppend(p.scheme + "://" + p.netloc, p.path);
      LowerAppend(p.scheme + "://", p.netloc);
      LowerAppend(p.scheme, "://");
      assert Lower("://") == "://";
      assert Lower(p.scheme) + "://" + Lower(p.netloc) + Lower(p.path) == Lower(j);
      RStripLower(j);
      LowerIdempotent(RStrip(j, '/'));
    }
  }

  // ---------------------------------------------------------------------
  // urlparse of composed components
  // ---------------------------------------------------------------------

  function ParamsPart(c: ParsedUrl): string { if c.params != "" then ";" + c.params else "" }
  function QueryPart(c: ParsedUrl): string { if c.query != "" then "?" + c.query else "" }
  function FragmentPart(c: ParsedUrl): string { if c.fragment != "" then "#" + c.fragment else "" }

  lemma ComposeShape(c: ParsedUrl)
    ensures Compose(c) == c.scheme + ":" + ("//" + (c.netloc + (c.path + ParamsPart(c) + QueryPart(c) + FragmentPart(c))))
  {
  }

  lemma SplitSchemeComposed(c: ParsedUrl, rest: string)
    requires WellFormed(c)
    ensures SplitScheme(c.scheme + ":" + rest) == (c.scheme, rest)
  {
    var url := c.scheme + ":" + rest;
    var s := |c.scheme|;
    forall k | 0 <= k < s ensures url[k] != ':' { assert url[k] == c.scheme[k] && IsSchemeChar(c.scheme[k]); }
    IndexOfIs(url, ':', s);
    assert url[..s] == c.scheme;
    LowerOfLowercase(c.scheme);
    assert url[s + 1..] == rest;
  }

  lemma SplitNetlocComposed(c: ParsedUrl, tail: string)
    requires WellFormed(c)
    requires tail == "" || tail[0] in NetlocEnd
    ensures SplitNetloc("//" + (c.netloc + tail)) == (c.netloc, tail)
  {
    var rest := "//" + (c.netloc + tail);
    assert rest[..2] == "//";
    assert rest[2..] == c.netloc + tail;
    IndexOfAnyIs(c.netloc + tail, NetlocEnd, |c.netloc|);
    assert rest[2..2 + |c.netloc|] == c.netloc;
    assert rest[2 + |c.netloc|..] == tail;
  }

  lemma IndexOfAbsent(s: string, c: char)
    requires c !in s
    ensures IndexOf(s, c) == |s|
  {
  }

  lemma NotInSuffix(s: string, from: nat, c: char)
    requires from <= |s| && c !in s
    ensures c !in s[from..]
  {
  }

  lemma SplitParamsComposed(c: ParsedUrl)
    requires WellFormed(c)
    requires c.scheme in UsesParams
    ensures SplitParams(c.path + ParamsPart(c)) == (c.path, c.params)
  {
    if c.params == "" {
      assert c.path + ParamsPart(c) == c.path;
      SplitParamsNoSemicolon(c.path);
    } else {
      SplitParamsPresent(c);
    }
  }

  lemma SplitParamsNoSemicolon(path: string)
    requires ';' !in path
    ensures SplitParams(path) == (path, "")
  {
    var slash := LastIndexOf(path, '/');
    if 0 <= slash {
      NotInSuffix(path, slash, ';');
      IndexOfAbsent(path[slash..], ';');
    } else {
      IndexOfAbsent(path, ';');
    }
    assert ParamsStart(path) == |path|;
  }

  lemma SplitParamsPresent(c: ParsedUrl)
    requires WellFormed(c) && c.params != ""
    ensures SplitParams(c.path + ParamsPart(c)) == (c.path, c.params)
  {
    SplitParamsAfterPath(c.path, c.params);
  }

  /** `path;params` splits back into its two parts when the path starts with
      '/' and holds no ';', and `params` holds no '/'. */
  lemma SplitParamsAfterPath(path: string, params: string)
    requires path != "" && path[0] == '/' && ';' !in path && '/' !in params
    ensures SplitParams(path + (";" + params)) == (path, params)
  {
    var x := path + (";" + params);
    ParamsStartAfterPath(path, params);
    assert SplitParams(x) == (x[..|path|], x[|path| + 1..]);
    assert x[..|path|] == path;
    assert x[|path| + 1..] == params;
  }

  lemma ParamsStartAfterPath(path: string, params: string)
    requires path != "" && path[0] == '/' && ';' !in path && '/' !in params
    ensures ParamsStart(path + (";" + params)) == |path|
  {
    var x := path + (";" + params);
    var r := LastIndexOf(path, '/');
    LastSlashBeforeParams(path, params);
    assert x[r..] == path[r..] + (";" + params);
    NotInSuffix(path, r, ';');
    IndexOfAfter(path[r..], ";" + params, ';');
  }

  lemma LastSlashBeforeParams(path: string, params: string)
    requires path != "" && path[0] == '/' && '/' !in params
    ensures 0 <= LastIndexOf(path + (";" + params), '/') == LastIndexOf(path, '/')
  {
    var x := path + (";" + params);
    var r := LastIndexOf(path, '/');
    forall k | r < k < |x| ensures x[k] != '/' {
      if k >= |path| { assert x[k] == (";" + params)[k - |path|]; }
    }
    LastIndexOfIs(x, '/', r);
  }

  function Tail(c: ParsedUrl): string
  {
    c.path + ParamsPart(c) + QueryPart(c) + FragmentPart(c)
  }

  lemma TailStart(c: ParsedUrl)
    requires WellFormed(c)
    ensures Tail(c) == "" || Tail(c)[0] in NetlocEnd
  {
    var tail := Tail(c);
    if tail != "" {
      if c.path != "" { assert tail[0] == c.path[0]; }
      else if QueryPart(c) != "" { assert tail[0] == QueryPart(c)[0]; }
      else { assert tail == FragmentPart(c); }
    }
  }

  /** The first `c` in `a + b` is where `b` starts, when `a` has none and `b`
      is empty or starts with `c`. */
  lemma IndexOfAfter(a: string, b: string, c: char)
    requires c !in a
    requires b == "" || b[0] == c
    ensures IndexOf(a + b, c) == |a|
    ensures (a + b)[..|a|] == a
  {
    forall k | 0 <= k < |a| ensures (a + b)[k] != c { assert (a + b)[k] == a[k]; }
    IndexOfIs(a + b, c, |a|);
  }

  lemma FragmentSplit(c: ParsedUrl)
    requires WellFormed(c)
    ensures SplitAt(Tail(c), '#') == (c.path + ParamsPart(c) + QueryPart(c), c.fragment)
  {
    var front := c.path + ParamsPart(c) + QueryPart(c);
    assert Tail(c) == front + FragmentPart(c);
    IndexOfAfter(front, FragmentPart(c), '#');
    if c.fragment != "" {
      assert Tail(c)[|front| + 1..] == c.fragment;
    } else {
      assert Tail(c) == front;
    }
  }

  lemma QuerySplit(c: ParsedUrl)
    requires WellFormed(c)
    ensures SplitAt(c.path + ParamsPart(c) + QueryPart(c), '?') == (c.path + ParamsPart(c), c.query)
  {
    var front := c.path + ParamsPart(c) + QueryPart(c);
    var inner := c.path + ParamsPart(c);
    IndexOfAfter(inner, QueryPart(c), '?');
    if c.query != "" {
      assert front[|inner| + 1..] == c.query;
    } else {
      assert front == inner;
    }
  }

  /** urlparse gives back well-formed components unchanged. */
  lemma ParseCompose(c: ParsedUrl)
    requires WellFormed(c)
    ensures UrlParse(Compose(c)) == Some(c)
  {
    ComposeShape(c);
    assert Compose(c) == c.scheme + ":" + ("//" + (c.netloc + Tail(c)));
    SplitSchemeComposed(c, "//" + (c.netloc + Tail(c)));
    TailStart(c);
    SplitNetlocComposed(c, Tail(c));
    FragmentSplit(c);
    QuerySplit(c);
    if c.scheme in UsesParams {
      SplitParamsComposed(c);
    } else {
      assert ParamsPart(c) == "";
      assert c.path + ParamsPart(c) == c.path;
    }
  }

  /** The normal form built from scheme, netloc and path alone. */
  function NormalForm(scheme: string, netloc: string, path: string): string
  {
    Lower(RStrip(scheme + "://" + netloc + path, '/'))
  }

  /** Only scheme, "://", netloc and path reach the normal form. */
  lemma NormalizeComposed(c: ParsedUrl)
    requires WellFormed(c)
    ensures NormalizeUrl(Compose(c)) == Some(NormalForm(c.scheme, c.netloc, c.path))
  {
    ParseCompose(c);
  }

  /** The normal form depends on the path only through the path with its
      trailing slashes removed. */
  lemma NormalFormStripsPath(scheme: string, netloc: string, p1: string, p2: string)
    requires RStrip(p1, '/') == RStrip(p2, '/')
    ensures NormalForm(scheme, netloc, p1) == NormalForm(scheme, netloc, p2)
  {
    var a, b := scheme + ":", "//" + netloc;
    assert scheme + "://" == a + "//";
    JoinShape(scheme, netloc, p1);
    JoinShape(scheme, netloc, p2);
    StripAfterHead(a, b, p1);
    StripAfterHead(a, b, p2);
    var x1, x2 := RStrip(a + b + p1, '/'), RStrip(a + b + p2, '/');
    assert x1 == x2;
  }

  lemma JoinShape(scheme: string, netloc: string, path: string)
    ensures scheme + "://" + netloc + path == (scheme + ":") + ("//" + netloc) + path
  {
    assert scheme + "://" == (scheme + ":") + "//";
  }

  /** URLs that differ only in trailing slashes of the path, in `;params`, in the
      query or in the fragment have the same normal form. */
  lemma NormalizeIgnoresSlashesQueryFragment(c1: ParsedUrl, c2: ParsedUrl)
    requires WellFormed(c1) && WellFormed(c2)
    requires c1.scheme == c2.scheme && c1.netloc == c2.netloc
    requires RStrip(c1.path, '/') == RStrip(c2.path, '/')
    ensures NormalizeUrl(Compose(c1)) == NormalizeUrl(Compose(c2))
  {
    NormalizeComposed(c1);
    NormalizeComposed(c2);
    NormalFormStripsPath(c1.scheme, c1.netloc, c1.path, c2.path);
  }

  /** `rstrip` of `a + b + p` depends on `p` only through `rstrip` of `p`,
      when `a` ends in something other than a slash. */
  lemma StripAfterHead(a: string, b: string, p: string)
    requires a != [] && a[|a| - 1] != '/'
    ensures RStrip(a + b + p, '/') == RStrip(a + (b + RStrip(p, '/')), '/')
  {
    var r := RStrip(p, '/');
    var t := p[|r|..];
    assert p == r + t;
    forall k | 0 <= k < |t| ensures t[k] == '/' { assert t[k] == p[|r| + k]; }
    Regroup(a, b, r, t);
    RStripSlashes(a + (b + r), t);
  }

  lemma Regroup(a: string, b: string, r: string, t: string)
    ensures a + b + (r + t) == (a + (b + r)) + t
  {
  }

  /** Appending slashes to the path never changes the normal form. */
  lemma NormalizeIgnoresTrailingSlashes(c: ParsedUrl, slashes: string)
    requires WellFormed(c)
    requires |slashes| > 0 && forall k :: 0 <= k < |slashes| ==> slashes[k] == '/'
    ensures NormalizeUrl(Compose(c.(path := c.path + slashes))) == NormalizeUrl(Compose(c))
  {
    var c2 := c.(path := c.path + slashes);
    assert c2.path[0] == '/' by { if c.path != "" { assert c2.path[0] == c.path[0]; } }
    assert WellFormed(c2);
    RStripSlashes(c.path, slashes);
    NormalizeIgnoresSlashesQueryFragment(c2, c);
  }

  // ---------------------------------------------------------------------
  // Totality and idempotence
  // ---------------------------------------------------------------------

  /** No scheme is rejected: normalisation fails exactly where urlparse raises,
      for an unbalanced bracket in the netloc. */
  lemma NormalizeFailsOnlyOnBrackets(url: string)
    ensures NormalizeUrl(url).None? <==> UnbalancedBrackets(SplitNetloc(SplitScheme(url).1).0)
  {
  }

  /** No scheme is rejected: an opaque URL such as a `mailto:` address comes
      out with "//" inserted after its scheme. */
  lemma OpaqueUrlGetsSlashes(scheme: string, rest: string)
    requires SchemeShape(scheme) && SegmentShape(rest)
    ensures NormalizeUrl(scheme + ":" + rest) == Some(scheme + "://" + rest)
  {
    OpaqueSchemeSplit(scheme, rest);
    OpaqueRest(rest);
    ParseSteps(scheme + ":" + rest, scheme, rest, "", rest, rest, "", rest, "", rest, "");
    OpaqueForm(scheme, rest);
  }

  lemma OpaqueSchemeSplit(scheme: string, rest: string)
    requires SchemeShape(scheme) && rest != []
    ensures SplitScheme(scheme + ":" + rest) == (scheme, rest)
  {
    var url := scheme + ":" + rest;
    assert url[..|scheme|] == scheme && url[|scheme|] == ':' && url[|scheme| + 1..] == rest;
    SchemeSplitIs(url, |scheme|);
  }

  lemma OpaqueRest(rest: string)
    requires SegmentShape(rest)
    ensures SplitNetloc(rest) == ("", rest)
    ensures SplitAt(rest, '#') == (rest, "") && SplitAt(rest, '?') == (rest, "")
    ensures SplitParams(rest) == (rest, "")
  {
    assert rest[0] != '/';
    SplitAtAbsent(rest, '#');
    SplitAtAbsent(rest, '?');
    SplitParamsAbsent(rest);
  }

  lemma OpaqueForm(scheme: string, rest: string)
    requires SchemeShape(scheme) && SegmentShape(rest)
    ensures NormalForm(scheme, "", rest) == scheme + "://" + rest
  {
    assert scheme + "://" + "" + rest == scheme + "://" + rest;
    NoUpperAppend(scheme, "://");
    NoUpperAppend(scheme + "://", rest);
    StrippedNoSlash(scheme + "://" + rest);
  }

  /** A path with neither '/' nor ';' carries no params. */
  lemma SplitParamsAbsent(path: string)
    requires '/' !in path && ';' !in path
    ensures SplitParams(path) == (path, "")
  {
    LastIndexOfIs(path, '/', -1);
    IndexOfIs(path, ';', |path|);
  }

  /** A lower-case scheme followed by ':' is split off as written. */
  lemma SchemeSplitIs(url: string, i: nat)
    requires 0 < i < |url| && url[i] == ':'
    requires IsAsciiLetter(url[0]) && HasNoUpper(url[..i])
    requires forall k :: 0 <= k < i ==> IsSchemeChar(url[k]) && url[k] != ':'
    ensures SplitScheme(url) == (url[..i], url[i + 1..])
  {
    IndexOfIs(url, ':', i);
    LowerOfLowercase(url[..i]);
  }

  /** `urlparse` assembled from its splitting steps. */
  lemma ParseSteps(url: string, scheme: string, rest: string, netloc: string, rest1: string,
                   rest2: string, fragment: string, rest3: string, query: string,
                   path: string, params: string)
    requires SplitScheme(url) == (scheme, rest)
    requires SplitNetloc(rest) == (netloc, rest1)
    requires !UnbalancedBrackets(netloc)
    requires SplitAt(rest1, '#') == (rest2, fragment)
    requires SplitAt(rest2, '?') == (rest3, query)
    requires (if scheme in UsesParams then SplitParams(rest3) else (rest3, "")) == (path, params)
    ensures UrlParse(url) == Some(ParsedUrl(scheme, netloc, path, params, query, fragment))
    ensures NormalizeUrl(url) == Some(NormalForm(scheme, netloc, path))
  {
  }

  /** Splitting at a character the string does not hold leaves it whole. */
  lemma SplitAtAbsent(s: string, c: char)
    requires c !in s
    ensures SplitAt(s, c) == (s, "")
  {
    IndexOfIs(s, c, |s|);
  }

  /** A string that does not end with '/' is its own normal form. */
  lemma StrippedNoSlash(s: string)
    requires s != [] && s[|s| - 1] != '/'
    requires HasNoUpper(s)
    ensures Lower(RStrip(s, '/')) == s
  {
    LowerOfLowercase(s);
  }

  /** For an absolute URL with a scheme and a host, and no ';' left in its path,
      normalising twice gives what normalising once gave. */
  lemma NormalizeIdempotent(url: string)
    requires UrlParse(url).Some?
    requires UrlParse(url).value.scheme != "" && UrlParse(url).value.netloc != ""
    requires ';' !in UrlParse(url).value.path
    ensures NormalizeUrl(url).Some?
    ensures NormalizeUrl(NormalizeUrl(url).value) == NormalizeUrl(url)
  {
    var p := UrlParse(url).value;
    ParsedFacts(url);
    assert NormalizeUrl(url) == Some(NormalForm(p.scheme, p.netloc, p.path));
    BareIsFixed(p);
  }

  /** What urlparse guarantees of the components of an absolute URL with a
      host and no ';' in its path. */
  predicate HostShaped(p: ParsedUrl)
  {
    && HasNoUpper(p.scheme) && p.scheme != ""
    && IsAsciiLetter(p.scheme[0]) && (forall k :: 0 <= k < |p.scheme| ==> IsSchemeChar(p.scheme[k]))
    && p.netloc != "" && (forall k :: 0 <= k < |p.netloc| ==> p.netloc[k] !in NetlocEnd)
    && !UnbalancedBrackets(p.netloc)
    && '?' !in p.path && '#' !in p.path && ';' !in p.path
    && (p.path == "" || p.path[0] == '/')
  }

  /** The components of a first pass: scheme, the lower-cased netloc and the
      lower-cased stripped path. */
  function Bare(p: ParsedUrl): ParsedUrl
  {
    ParsedUrl(p.scheme, Lower(p.netloc), Lower(RStrip(p.path, '/')), "", "", "")
  }

  /** The first pass composes well-formed bare components, which normalise to themselves. */
  lemma BareIsFixed(p: ParsedUrl)
    requires HostShaped(p)
    ensures NormalizeUrl(NormalForm(p.scheme, p.netloc, p.path)) == Some(NormalForm(p.scheme, p.netloc, p.path))
  {
    var c := Bare(p);
    FirstPassIsBare(p);
    NormalizeComposed(c);
    BareIsNormal(p);
  }

  /** The first pass composes its own components, and they are well formed. */
  lemma FirstPassIsBare(p: ParsedUrl)
    requires HostShaped(p)
    ensures WellFormed(Bare(p))
    ensures NormalForm(p.scheme, p.netloc, p.path) == Compose(Bare(p))
  {
    var sp := RStrip(p.path, '/');
    var c := Bare(p);
    NormalFormWithHost(p.scheme, p.netloc, p.path);
    ComposeBare(p.scheme, Lower(p.netloc), Lower(sp));
    StrippedFacts(p.path);
    assert WellFormed(c) by {
      forall k | 0 <= k < |c.netloc| ensures c.netloc[k] !in NetlocEnd { LowerCharFacts(p.netloc[k]); }
      InLower(p.netloc, '[');
      InLower(p.netloc, ']');
      InLower(sp, '?');
      InLower(sp, '#');
      InLower(sp, ';');
      if sp != "" { LowerKeepsNonLetter(sp, 0, '/'); }
    }
  }

  /** The bare components are their own normal form: the path is stripped
      already and lower-casing twice changes nothing. */
  lemma BareIsNormal(p: ParsedUrl)
    requires HasNoUpper(p.scheme)
    requires p.netloc != "" && p.netloc[|p.netloc| - 1] !in NetlocEnd
    ensures NormalForm(Bare(p).scheme, Bare(p).netloc, Bare(p).path) == Compose(Bare(p))
  {
    var c := Bare(p);
    var sp := RStrip(p.path, '/');
    StrippedFacts(p.path);
    LowerCharFacts(p.netloc[|p.netloc| - 1]);
    NormalFormWithHost(c.scheme, c.netloc, c.path);
    RStripLower(sp);
    LowerIdempotent(sp);
    LowerIdempotent(p.netloc);
    ComposeBare(c.scheme, c.netloc, c.path);
  }

  /** With a non-empty netloc, stripping cannot reach into the netloc, so the
      normal form is the lower-cased prefix followed by the lower-cased stripped path. */
  lemma NormalFormWithHost(scheme: string, netloc: string, path: string)
    requires HasNoUpper(scheme)
    requires netloc != "" && netloc[|netloc| - 1] != '/'
    ensures NormalForm(scheme, netloc, path)
            == scheme + "://" + Lower(netloc) + Lower(RStrip(path, '/'))
  {
    var head := scheme + "://" + netloc;
    assert head[|head| - 1] == netloc[|netloc| - 1];
    RStripAfter(head, path);
    LowerAppend(head, RStrip(path, '/'));
    LowerAppend(scheme + "://", netloc);
    LowerAppend(scheme, "://");
    LowerOfLowercase(scheme);
    assert Lower("://") == "://";
  }

  lemma ComposeBare(scheme: string, netloc: string, path: string)
    ensures Compose(ParsedUrl(scheme, netloc, path, "", "", "")) == scheme + "://" + netloc + path
  {
    assert scheme + ":" + "//" == scheme + "://";
  }

  /** A path with its trailing slashes stripped lies inside the path and is
      stripped already. */
  lemma StrippedFacts(path: string)
    ensures var sp := RStrip(path, '/');
      && RStrip(sp, '/') == sp
      && (sp != "" ==> sp[0] == path[0])
      && (forall ch :: ch in sp ==> ch in path)
  {
  }

  /** `SplitAt` keeps a prefix holding no copy of the separator. */
  lemma SplitAtFacts(s: string, c: char)
    ensures var front := SplitAt(s, c).0;
      && |front| <= |s| && front == s[..|front|] && c !in front
  {
  }

  lemma SplitParamsFacts(path: string)
    ensures var front := SplitParams(path).0;
      |front| <= |path| && front == path[..|front|]
  {
  }

  lemma SchemeFacts(url: string)
    ensures var scheme := SplitScheme(url).0;
      && HasNoUpper(scheme)
      && (scheme != "" ==> IsAsciiLetter(scheme[0]) && forall k :: 0 <= k < |scheme| ==> IsSchemeChar(scheme[k]))
  {
    var i := IndexOf(url, ':');
    if 0 < i < |url| && IsAsciiLetter(url[0]) && forall k :: 0 <= k < i ==> IsSchemeChar(url[k]) {
      var scheme := Lower(url[..i]);
      forall k | 0 <= k < i ensures IsSchemeChar(scheme[k]) && !IsUpper(scheme[k]) { LowerCharFacts(url[k]); }
      LowerCharFacts(url[0]);
    }
  }

  lemma NetlocFacts(rest: string)
    ensures var (netloc, rest1) := SplitNetloc(rest);
      && (forall k :: 0 <= k < |netloc| ==> netloc[k] !in NetlocEnd)
      && (netloc != "" ==> rest1 == "" || rest1[0] in NetlocEnd)
  {
    if |rest| >= 2 && rest[..2] == "//" {
      var d := 2 + IndexOfAny(rest[2..], NetlocEnd);
      forall k | 0 <= k < d - 2 ensures rest[2..d][k] !in NetlocEnd {
        assert rest[2..d][k] == rest[2..][k];
      }
      if d < |rest| {
        assert rest[d..][0] == rest[2..][d - 2];
      }
    }
  }

  /** A prefix holds no character its sequence does not. */
  lemma PrefixMembers(s: string, t: string)
    requires |t| <= |s| && t == s[..|t|]
    ensures forall ch :: ch in t ==> ch in s
  {
    forall ch | ch in t ensures ch in s { var k :| 0 <= k < |t| && t[k] == ch; assert s[k] == ch; }
  }

  /** What urlparse's splitting guarantees about the components it returns. */
  lemma ParsedFacts(url: string)
    requires UrlParse(url).Some?
    ensures var p := UrlParse(url).value;
      && HasNoUpper(p.scheme)
      && (p.scheme != "" ==> IsAsciiLetter(p.scheme[0]) && forall k :: 0 <= k < |p.scheme| ==> IsSchemeChar(p.scheme[k]))
      && (forall k :: 0 <= k < |p.netloc| ==> p.netloc[k] !in NetlocEnd)
      && !UnbalancedBrackets(p.netloc)
      && '?' !in p.path && '#' !in p.path
      && (p.netloc != "" ==> p.path == "" || p.path[0] == '/')
  {
    SchemeFacts(url);
    NetlocFacts(SplitScheme(url).1);
    ParsedPathFacts(url);
  }

  /** The path urlparse returns holds no '?' or '#', and follows a netloc with
      a '/' when it is not empty. */
  lemma ParsedPathFacts(url: string)
    requires UrlParse(url).Some?
    ensures var p := UrlParse(url).value;
      && '?' !in p.path && '#' !in p.path
      && (p.netloc != "" ==> p.path == "" || p.path[0] == '/')
  {
    var (scheme, rest) := SplitScheme(url);
    var (netloc, rest1) := SplitNetloc(rest);
    NetlocFacts(rest);
    PathWithin(rest1, scheme in UsesParams);
    var p := UrlParse(url).value;
    if netloc != "" && p.path != "" {
      assert p.path[0] == rest1[0];
    }
  }

  /** The path cut from what follows the netloc is a prefix of it, and holds
      no '?' or '#'. */
  lemma PathWithin(rest1: string, usesParams: bool)
    ensures var rest3 := SplitAt(SplitAt(rest1, '#').0, '?').0;
      var path := if usesParams then SplitParams(rest3).0 else rest3;
      && '?' !in path && '#' !in path && |path| <= |rest1| && path == rest1[..|path|]
  {
    var rest2 := SplitAt(rest1, '#').0;
    SplitAtFacts(rest1, '#');
    var rest3 := SplitAt(rest2, '?').0;
    SplitAtFacts(rest2, '?');
    SplitParamsFacts(rest3);
    var path := if usesParams then SplitParams(rest3).0 else rest3;
    assert path == rest3[..|path|];
    assert rest3 == rest1[..|rest3|];
    PrefixMembers(rest2, rest3);
    PrefixMembers(rest3, path);
  }

  lemma NoUpperAppend(a: string, b: string)
    requires HasNoUpper(a) && HasNoUpper(b)
    ensures HasNoUpper(a + b)
  {
    forall k | 0 <= k < |a + b| ensures !IsUpper((a + b)[k]) {
      if k < |a| { assert (a + b)[k] == a[k]; } else { assert (a + b)[k] == b[k - |a|]; }
    }
  }

  /** `x;y/`: the last segment is empty, so the ';' stays in the path. */
  lemma SemicolonHiddenBySlash(x: string, y: string)
    requires '/' !in x && '/' !in y && ';' !in y
    ensures SplitParams("/" + x + ";" + y + "/") == ("/" + x + ";" + y + "/", "")
  {
    var tail := "/" + x + ";" + y + "/";
    LastIndexOfIs(tail, '/', |tail| - 1);
    assert tail[|tail| - 1..] == "/";
    IndexOfIs("/", ';', 1);
  }

  /** The ';' right after `x` in the last segment starts the params. */
  lemma SemicolonSplitsLastSegment(x: string, y: string)
    requires '/' !in x && ';' !in x && '/' !in y
    ensures SplitParams("/" + x + ";" + y) == ("/" + x, y)
  {
    var path := "/" + x + ";" + y;
    forall k | 0 < k < |path| ensures path[k] != '/' {
      if k <= |x| { assert path[k] == x[k - 1]; }
      else if k > |x| + 1 { assert path[k] == y[k - |x| - 2]; }
    }
    LastIndexOfIs(path, '/', 0);
    assert path == ("/" + x) + (";" + y);
    IndexOfAfter("/" + x, ";" + y, ';');
    assert path[0..] == path;
    assert ParamsStart(path) == |x| + 1;
    assert path[|x| + 2..] == y;
  }

  /** The scheme conditions of `WellFormed`. */
  predicate SchemeShape(scheme: string)
  {
    && scheme != "" && IsAsciiLetter(scheme[0]) && HasNoUpper(scheme)
    && (forall k :: 0 <= k < |scheme| ==> IsSchemeChar(scheme[k]))
  }

  /** A host as `WellFormed` admits it, lower-case. */
  predicate HostShape(host: string)
  {
    && host != "" && HasNoUpper(host) && !UnbalancedBrackets(host)
    && (forall k :: 0 <= k < |host| ==> host[k] !in NetlocEnd)
  }

  /** A path segment without separators, lower-case. */
  predicate SegmentShape(x: string)
  {
    x != "" && HasNoUpper(x) && '/' !in x && '?' !in x && '#' !in x && ';' !in x
  }

  /** Idempotence needs the hypothesis on ';': for a scheme such as http, a ';'
      in the last path segment survives the first pass because a trailing '/'
      hides it from the params split, and the second pass then cuts it off. */
  lemma NormalizeNotIdempotentWithSemicolon(scheme: string, host: string, x: string, y: string)
    requires SchemeShape(scheme) && scheme in UsesParams
    requires HostShape(host) && SegmentShape(x) && SegmentShape(y)
    ensures NormalizeUrl(scheme + "://" + host + "/" + x + ";" + y + "/")
            == Some(scheme + "://" + host + "/" + x + ";" + y)
    ensures NormalizeUrl(scheme + "://" + host + "/" + x + ";" + y)
            == Some(scheme + "://" + host + "/" + x)
  {
    FirstPassKeepsSemicolon(scheme, host, x, y);
    SecondPassCutsIt(scheme, host, x, y);
  }

  lemma FirstPassKeepsSemicolon(scheme: string, host: string, x: string, y: string)
    requires SchemeShape(scheme) && scheme in UsesParams
    requires HostShape(host) && SegmentShape(x) && SegmentShape(y)
    ensures NormalizeUrl(scheme + "://" + host + "/" + x + ";" + y + "/")
            == Some(scheme + "://" + host + "/" + x + ";" + y)
  {
    FirstPassParse(scheme, host, x, y);
    FirstPassForm(scheme, host, x, y);
  }

  lemma FirstPassParse(scheme: string, host: string, x: string, y: string)
    requires SchemeShape(scheme) && scheme in UsesParams
    requires HostShape(host) && SegmentShape(x) && SegmentShape(y)
    ensures NormalizeUrl(scheme + "://" + host + "/" + x + ";" + y + "/")
            == Some(NormalForm(scheme, host, "/" + x + ";" + y + "/"))
  {
    var c := ParsedUrl(scheme, host, "/" + x, y, "", "");
    assert WellFormed(c);
    var tail := "/" + x + ";" + y + "/";
    var rest := "//" + (host + tail);
    assert scheme + "://" + host + "/" + x + ";" + y + "/" == scheme + ":" + rest;
    SplitSchemeComposed(c, rest);
    SplitNetlocComposed(c, tail);
    SplitAtAbsent(tail, '#');
    SplitAtAbsent(tail, '?');
    SemicolonHiddenBySlash(x, y);
    ParseSteps(scheme + ":" + rest, scheme, rest, host, tail, tail, "", tail, "", tail, "");
  }

  lemma FirstPassForm(scheme: string, host: string, x: string, y: string)
    requires SchemeShape(scheme) && HostShape(host) && SegmentShape(x) && SegmentShape(y)
    ensures NormalForm(scheme, host, "/" + x + ";" + y + "/") == scheme + "://" + host + "/" + x + ";" + y
  {
    var kept := "/" + x + ";" + y;
    var tail := kept + "/";
    NormalFormWithHost(scheme, host, tail);
    assert RStrip(tail, '/') == kept;
    NoUpperAppend("/", x);
    NoUpperAppend("/" + x, ";");
    NoUpperAppend("/" + x + ";", y);
    LowerOfLowercase(host);
    LowerOfLowercase(kept);
    Assoc(scheme + "://" + host, "/" + x + ";", y);
    Assoc(scheme + "://" + host, "/" + x, ";");
    Assoc(scheme + "://" + host, "/", x);
  }

  lemma SecondPassCutsIt(scheme: string, host: string, x: string, y: string)
    requires SchemeShape(scheme) && scheme in UsesParams
    requires HostShape(host) && SegmentShape(x) && SegmentShape(y)
    ensures NormalizeUrl(scheme + "://" + host + "/" + x + ";" + y)
            == Some(scheme + "://" + host + "/" + x)
  {
    var c := ParsedUrl(scheme, host, "/" + x, y, "", "");
    SecondPassComposed(scheme, host, x, y);
    NormalizeComposed(c);
    SegmentIsNormal(scheme, host, x);
  }

  lemma SecondPassComposed(scheme: string, host: string, x: string, y: string)
    requires SchemeShape(scheme) && scheme in UsesParams
    requires HostShape(host) && SegmentShape(x) && SegmentShape(y)
    ensures WellFormed(ParsedUrl(scheme, host, "/" + x, y, "", ""))
    ensures Compose(ParsedUrl(scheme, host, "/" + x, y, "", "")) == scheme + "://" + host + "/" + x + ";" + y
  {
    var c := ParsedUrl(scheme, host, "/" + x, y, "", "");
    assert WellFormed(c);
  }

  /** A lower-case host and segment are their own normal form. */
  lemma SegmentIsNormal(scheme: string, host: string, x: string)
    requires SchemeShape(scheme) && HostShape(host) && SegmentShape(x)
    ensures NormalForm(scheme, host, "/" + x) == scheme + "://" + host + "/" + x
  {
    NormalFormWithHost(scheme, host, "/" + x);
    assert RStrip("/" + x, '/') == "/" + x;
    NoUpperAppend("/", x);
    LowerOfLowercase(host);
    LowerOfLowercase("/" + x);
    Assoc(scheme + "://" + host, "/", x);
  }

  lemma Assoc(a: string, b: string, c: string)
    ensures a + (b + c) == a + b + c
  {
  }
}
