/** The three-tier link check of the full crawler: a HEAD request, then a
    GET request when the server refuses HEAD, then a headless browser when
    both requests fail. The network and the browser are parameters: each of
    the three attempts is given by what it returned or raised. */
module LinkCheck {
  import opened Types

  /** What an HTTP request (redirects followed) gave back: a response with
      its status code and final URL, or an exception with its message. */
  datatype HttpOutcome = Response(status: int, url: string) | Raised(error: string)

  /** What loading the page in the browser gave: the browser's current URL
      (possibly empty), or an exception with its message. */
  datatype BrowserOutcome = Rendered(currentUrl: string) | BrowserRaised(error: string)

  /** The triple `(status_code, final_url, details)` of `check_link`. */
  datatype Verdict = Verdict(status: Status, finalUrl: string, details: string)

  /** Status codes after which the next tier is tried. */
  const RetryCodes: set<int> := {400, 403, 405}

  const HeadDetails: string := "Checked with HEAD"
  const GetDetails: string := "Checked with GET"
  const LoadedDetails: string := "Page loaded successfully"
  const NotLoadedDetails: string := "Failed to load page"

  function BrowserErrorDetails(url: string, error: string): string
  {
    "Selenium error for " + url + ": " + error
  }

  /** The details strings only the browser tier writes. */
  predicate IsBrowserDetails(url: string, d: string)
  {
    var prefix := BrowserErrorDetails(url, "");
    d == LoadedDetails || d == NotLoadedDetails || (|prefix| <= |d| && d[..|prefix|] == prefix)
  }

  /** `check_link_with_selenium`: status 200 exactly when the browser ended on a
      non-empty URL, and "error" otherwise. */
  function CheckWithBrowser(url: string, b: BrowserOutcome): (v: Verdict)
    ensures v.status == Code(200) <==> b.Rendered? && b.currentUrl != ""
    ensures v.status != Code(200) ==> v.status == Error
    ensures b.Rendered? ==> v.finalUrl == b.currentUrl
    ensures b.BrowserRaised? ==> v.finalUrl == url && v.details == BrowserErrorDetails(url, b.error)
    ensures v.details == LoadedDetails <==> v.status == Code(200)
    ensures IsBrowserDetails(url, v.details)
  {
    match b
    case BrowserRaised(e) =>
      assert BrowserErrorDetails(url, e) != LoadedDetails by {
        assert BrowserErrorDetails(url, e)[0] == 'S';
      }
      assert BrowserErrorDetails(url, e)[..|BrowserErrorDetails(url, "")|] == BrowserErrorDetails(url, "");
      Verdict(Error, url, BrowserErrorDetails(url, e))
    case Rendered(current) =>
      if current != "" then Verdict(Code(200), current, LoadedDetails)
      else Verdict(Error, current, NotLoadedDetails)
  }

  /** Whether an HTTP attempt settles the check: a response whose status is not
      one of the retry codes. */
  predicate Settles(o: HttpOutcome)
  {
    o.Response? && o.status !in RetryCodes
  }

  /** `check_link`: HEAD first; GET only when HEAD answered 400, 403 or 405;
      the browser when HEAD or GET raised, or GET answered a retry code too. */
  function CheckLink(url: string, head: HttpOutcome, get: HttpOutcome, browser: BrowserOutcome): (v: Verdict)
    ensures Settles(head) ==> v == Verdict(Code(head.status), head.url, HeadDetails)
    ensures !Settles(head) && head.Response? && Settles(get)
            ==> v == Verdict(Code(get.status), get.url, GetDetails)
    ensures head.Raised? || (!Settles(head) && !Settles(get)) ==> v == CheckWithBrowser(url, browser)
  {
    match head
    case Raised(_) => CheckWithBrowser(url, browser)
    case Response(s, u) =>
      if s !in RetryCodes then Verdict(Code(s), u, HeadDetails)
      else
        match get
        case Raised(_) => CheckWithBrowser(url, browser)
        case Response(s2, u2) =>
          if s2 in RetryCodes then CheckWithBrowser(url, browser)
          else Verdict(Code(s2), u2, GetDetails)
  }

  /** The browser's details strings differ from the two HTTP ones. */
  lemma BrowserDetailsDistinct(url: string, d: string)
    requires IsBrowserDetails(url, d)
    ensures d != HeadDetails && d != GetDetails
  {
    if d != LoadedDetails && d != NotLoadedDetails {
      assert d[0] == BrowserErrorDetails(url, "")[0] == 'S';
    }
  }

  /** The details string tells which tier decided: "Checked with HEAD" exactly
      when HEAD settled, "Checked with GET" exactly when GET settled after a
      refused HEAD, and a browser string otherwise. */
  lemma DetailsNameTheTier(url: string, head: HttpOutcome, get: HttpOutcome, browser: BrowserOutcome)
    ensures var v := CheckLink(url, head, get, browser);
      && (v.details == HeadDetails <==> Settles(head))
      && (v.details == GetDetails <==> !Settles(head) && head.Response? && Settles(get))
      && (IsBrowserDetails(url, v.details) <==> !Settles(head) && !(head.Response? && Settles(get)))
  {
    var v := CheckLink(url, head, get, browser);
    var b := CheckWithBrowser(url, browser);
    BrowserDetailsDistinct(url, b.details);
    assert !IsBrowserDetails(url, HeadDetails) by {
      if IsBrowserDetails(url, HeadDetails) { BrowserDetailsDistinct(url, HeadDetails); }
    }
    assert !IsBrowserDetails(url, GetDetails) by {
      if IsBrowserDetails(url, GetDetails) { BrowserDetailsDistinct(url, GetDetails); }
    }
  }

  /** A retry code never comes out of the check: the last tier answers 200 or "error". */
  lemma NeverRetryStatus(url: string, head: HttpOutcome, get: HttpOutcome, browser: BrowserOutcome)
    ensures forall c :: c in RetryCodes ==> CheckLink(url, head, get, browser).status != Code(c)
  {
  }

  /** When HEAD settles the check, GET and the browser are never consulted: the
      verdict is the same whatever they would have given. */
  lemma HeadSettledIgnoresLaterTiers(url: string, head: HttpOutcome, get1: HttpOutcome, get2: HttpOutcome,
                                     browser1: BrowserOutcome, browser2: BrowserOutcome)
    requires Settles(head)
    ensures CheckLink(url, head, get1, browser1) == CheckLink(url, head, get2, browser2)
  {
  }

  /** When HEAD raised, the GET outcome is never consulted. */
  lemma HeadRaisedSkipsGet(url: string, head: HttpOutcome, get1: HttpOutcome, get2: HttpOutcome,
                           browser: BrowserOutcome)
    requires head.Raised?
    ensures CheckLink(url, head, get1, browser) == CheckLink(url, head, get2, browser)
  {
  }

  /** When the browser tier decides and the page rendered, the final URL is the
      browser's, and the status is 200 exactly when that URL is non-empty. */
  lemma BrowserStatusMatchesUrl(url: string, head: HttpOutcome, get: HttpOutcome, browser: BrowserOutcome)
    requires !Settles(head) && !(head.Response? && Settles(get))
    requires browser.Rendered?
    ensures var v := CheckLink(url, head, get, browser);
      v.finalUrl == browser.currentUrl && (v.status == Code(200) <==> v.finalUrl != "")
  {
  }
}
