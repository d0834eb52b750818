/** URL splitting after Python's `urlparse` (simplified) and the crawler's
    `normalize_url`: `scheme://netloc path`, trailing '/' stripped, lower-cased. */
module UrlUtils {
  import opened Types

  // ---------------------------------------------------------------------
  // Characters and strings
  // ---------------------------------------------------------------------

  predicate IsUpper(c: char) { 'A' <= c <= 'Z' }

  predicate IsAsciiLetter(c: char) { 'A' <= c <= 'Z' || 'a' <= c <= 'z' }

  /** The characters Python accepts in a scheme. */
  predicate IsSchemeChar(c: char)
  {
    IsAsciiLetter(c) || '0' <= c <= '9' || c == '+' || c == '-' || c == '.'
  }

  /** ASCII lower-casing of one character. */
  function LowerChar(c: char): char
  {
    if IsUpper(c) then (c as int + 32) as char else c
  }

  lemma LowerCharFacts(c: char)
    ensures !IsUpper(LowerChar(c))
    ensures LowerChar(LowerChar(c)) == LowerChar(c)
    ensures IsAsciiLetter(LowerChar(c)) == IsAsciiLetter(c)
    ensures IsSchemeChar(LowerChar(c)) == IsSchemeChar(c)
    ensures !IsAsciiLetter(c) ==> LowerChar(c) == c
  {
  }

  /** `str.lower()` on ASCII: every character lower-cased, in place. */
  function Lower(s: string): (r: string)
    ensures |r| == |s|
    ensures forall i :: 0 <= i < |s| ==> r[i] == LowerChar(s[i])
  {
    seq(|s|, i requires 0 <= i < |s| => LowerChar(s[i]))
  }

  predicate HasNoUpper(s: string)
  {
    forall i :: 0 <= i < |s| ==> !IsUpper(s[i])
  }

  /** `str.rstrip(c)`: the longest prefix that does not end with `c`, where only
      copies of `c` were removed. */
  function RStrip(s: string, c: char): (r: string)
    ensures |r| <= |s| && r == s[..|r|]
    ensures r == [] || r[|r| - 1] != c
    ensures forall i :: |r| <= i < |s| ==> s[i] == c
  {
    if s == [] || s[|s| - 1] != c then s else RStrip(s[..|s| - 1], c)
  }

  /** `s.find(c)`, except that "not found" is |s| rather than -1. */
  function IndexOf(s: string, c: char): (r: nat)
    ensures r <= |s|
    ensures r < |s| ==> s[r] == c
    ensures forall k :: 0 <= k < r ==> s[k] != c
  {
    if s == [] then 0 else if s[0] == c then 0 else 1 + IndexOf(s[1..], c)
  }

  /** The first position holding one of `cs`, or |s|. */
  function IndexOfAny(s: string, cs: set<char>): (r: nat)
    ensures r <= |s|
    ensures r < |s| ==> s[r] in cs
    ensures forall k :: 0 <= k < r ==> s[k] !in cs
  {
    if s == [] then 0 else if s[0] in cs then 0 else 1 + IndexOfAny(s[1..], cs)
  }

  /** `s.rfind(c)`: the last position holding `c`, or -1. */
  function LastIndexOf(s: string, c: char): (r: int)
    ensures -1 <= r < |s|
    ensures 0 <= r ==> s[r] == c
    ensures forall k :: r < k < |s| ==> s[k] != c
  {
    if s == [] then -1
    else if s[|s| - 1] == c then |s| - 1
    else LastIndexOf(s[..|s| - 1], c)
  }

  lemma IndexOfIs(s: string, c: char, r: nat)
    requires r <= |s|
    requires r < |s| ==> s[r] == c
    requires forall k :: 0 <= k < r ==> s[k] != c
    ensures IndexOf(s, c) == r
  {
  }

  lemma IndexOfAnyIs(s: string, cs: set<char>, r: nat)
    requires r <= |s|
    requires r < |s| ==> s[r] in cs
    requires forall k :: 0 <= k < r ==> s[k] !in cs
    ensures IndexOfAny(s, cs) == r
  {
  }

  lemma LastIndexOfIs(s: string, c: char, r: int)
    requires -1 <= r < |s|
    requires 0 <= r ==> s[r] == c
    requires forall k :: r < k < |s| ==> s[k] != c
    ensures LastIndexOf(s, c) == r
  {
  }

  // ---------------------------------------------------------------------
  // urlparse
  // ---------------------------------------------------------------------

  datatype ParsedUrl = ParsedUrl(scheme: string, netloc: string, path: string,
                                 params: string, query: string, fragment: string)

  /** Python's `uses_params`: the schemes whose last path segment may carry `;params`. */
  const UsesParams: set<string> := {"", "ftp", "hdl", "prospero", "http", "imap", "https",
                                    "shttp", "rtsp", "rtsps", "rtspu", "sip", "sips", "mms",
                                    "sftp", "tel"}

  /** The netloc ends at the first of these. */
  const NetlocEnd: set<char> := {'/', '?', '#'}

  /** The text of the ValueError `urlparse` raises for an unbalanced '[' or ']'. */
  const InvalidIpv6: string := "Invalid IPv6 URL"

  /** Scheme ending at the first ':' when everything before it is a scheme
      character and the first is a letter; lower-cased. Otherwise no scheme. */
  function SplitScheme(url: string): (string, string)
  {
    var i := IndexOf(url, ':');
    if 0 < i < |url| && IsAsciiLetter(url[0]) && forall k :: 0 <= k < i ==> IsSchemeChar(url[k])
    then (Lower(url[..i]), url[i + 1..])
    else ("", url)
  }

  /** After a leading "//", the netloc runs to the first of '/', '?', '#'. */
  function SplitNetloc(rest: string): (string, string)
  {
    if |rest| >= 2 && rest[..2] == "//" then
      var d := 2 + IndexOfAny(rest[2..], NetlocEnd);
      (rest[2..d], rest[d..])
    else ("", rest)
  }

  /** `s.split(c, 1)` when `c in s`, and `(s, "")` otherwise. */
  function SplitAt(s: string, c: char): (string, string)
  {
    var i := IndexOf(s, c);
    if i < |s| then (s[..i], s[i + 1..]) else (s, "")
  }

  /** `_splitparams`: ';' searched from the last '/' on (or from the start when the
      path has no '/'). When the path holds no ';' this leaves it whole, which is why
      the `';' in url` test in front of the call needs no separate model. */
  function SplitParams(path: string): (string, string)
  {
    var i := ParamsStart(path);
    if i < |path| then (path[..i], path[i + 1..]) else (path, "")
  }

  /** Where `_splitparams` finds its ';', or |path|. */
  function ParamsStart(path: string): (i: nat)
    ensures i <= |path|
  {
    var slash := LastIndexOf(path, '/');
    if 0 <= slash then slash + IndexOf(path[slash..], ';') else IndexOf(path, ';')
  }

  predicate UnbalancedBrackets(netloc: string)
  {
    ('[' in netloc) != (']' in netloc)
  }

  /** `urlparse(url)`, or None where it raises ValueError. */
  function UrlParse(url: string): Option<ParsedUrl>
  {
    var (scheme, rest) := SplitScheme(url);
    var (netloc, rest1) := SplitNetloc(rest);
    if UnbalancedBrackets(netloc) then None
    else
      var (rest2, fragment) := SplitAt(rest1, '#');
      var (rest3, query) := SplitAt(rest2, '?');
      var (path, params) := if scheme in UsesParams then SplitParams(rest3) else (rest3, "");
      Some(ParsedUrl(scheme, netloc, path, params, query, fragment))
  }

  /** `urlparse(url).netloc`, or None where `urlparse` raises. */
  function NetlocOf(url: string): Option<string>
  {
    match UrlParse(url)
    case None => None
    case Some(p) => Some(p.netloc)
  }

  // ---------------------------------------------------------------------
  // normalize_url
  // ---------------------------------------------------------------------

  /** `normalize_url(url)`, or None where the `urlparse` inside it raises. The
      result never ends with '/' and holds no upper-case letter. */
  function NormalizeUrl(url: string): (r: Option<string>)
    ensures r.Some? ==> r.value != [] && r.value[|r.value| - 1] != '/'
    ensures r.Some? ==> HasNoUpper(r.value)
  {
    match UrlParse(url)
    case None => None
    case Some(p) =>
      JoinedFacts(p.scheme, p.netloc, p.path);
      Some(Lower(RStrip(p.scheme + "://" + p.netloc + p.path, '/')))
  }

  lemma JoinedFacts(scheme: string, netloc: string, path: string)
    ensures var r := Lower(RStrip(scheme + "://" + netloc + path, '/'));
      r != [] && r[|r| - 1] != '/' && HasNoUpper(r)
  {
    var joined := scheme + "://" + netloc + path;
    assert joined[|scheme|] == ':';
    StrippedLowerFacts(joined, |scheme|);
  }

  /** A string holding something other than '/' keeps a non-empty, lower-case
      rest after stripping and lower-casing, and that rest does not end with '/'. */
  lemma StrippedLowerFacts(s: string, k: nat)
    requires k < |s| && s[k] != '/'
    ensures var r := Lower(RStrip(s, '/'));
      r != [] && r[|r| - 1] != '/' && HasNoUpper(r)
  {
    var stripped := RStrip(s, '/');
    var r := Lower(stripped);
    forall i | 0 <= i < |r| ensures !IsUpper(r[i]) { LowerCharFacts(stripped[i]); }
    LowerCharFacts(stripped[|stripped| - 1]);
  }

  /** `scheme://netloc path;params?query#fragment`, leaving out empty optional parts. */
  function Compose(c: ParsedUrl): string
  {
    c.scheme + ":" + "//" + c.netloc + c.path
    + (if c.params != "" then ";" + c.params else "")
    + (if c.query != "" then "?" + c.query else "")
    + (if c.fragment != "" then "#" + c.fragment else "")
  }

  /** Components that `urlparse` gives back unchanged after `Compose`. */
  predicate WellFormed(c: ParsedUrl)
  {
    && c.scheme != "" && IsAsciiLetter(c.scheme[0]) && HasNoUpper(c.scheme)
    && (forall k :: 0 <= k < |c.scheme| ==> IsSchemeChar(c.scheme[k]))
    && (forall k :: 0 <= k < |c.netloc| ==> c.netloc[k] !in NetlocEnd)
    && !UnbalancedBrackets(c.netloc)
    && (c.path == "" || c.path[0] == '/')
    && '?' !in c.path && '#' !in c.path && ';' !in c.path
    && (c.params != "" ==> c.path != "" && c.scheme in UsesParams)
    && '/' !in c.params && '?' !in c.params && '#' !in c.params
    && '#' !in c.query
  }
}
