/** The traversal of the full crawler: a frontier of (URL, parent) entries
    processed in batches of ten; each URL is checked once, its record pushed
    to the task's result list, and when it answered 200 the links of its page
    are classified as internal (queued) or external (checked once, never
    crawled).

    The functions `AfterLink` … `AfterRun` give the state after each step; the
    class `Crawler` holds the same state in fields that its methods update in
    place, and each method is proved to leave the state its function gives. */
module Crawler {
  import opened Types
  import opened UrlUtils
  import opened LinkCheck

  // ---------------------------------------------------------------------
  // The web the crawl sees
  // ---------------------------------------------------------------------

  /** What fetching a page's text gave: the `href` of every `<a>` that has one,
      in document order, or the exception the request raised. */
  datatype Body = Links(hrefs: seq<string>) | BodyRaised(error: string)

  /** Everything the crawl can learn about one URL: the HEAD and GET outcomes
      `check_link` sees, what the browser would show, and the page text. */
  datatype Page = Page(head: HttpOutcome, get: HttpOutcome, browser: BrowserOutcome, body: Body)

  /** A finite web and the `urljoin` the crawler resolves links with. */
  datatype Web = Web(pages: map<string, Page>, join: (string, string) -> string)

  const Unreachable: string := "unreachable"

  /** A URL outside the web: every attempt raises. */
  function PageAt(w: Web, url: string): (p: Page)
    ensures url !in w.pages ==> p.body.BodyRaised? && p.head.Raised? && p.get.Raised?
  {
    if url in w.pages then w.pages[url]
    else Page(Raised(Unreachable), Raised(Unreachable), BrowserRaised(Unreachable), BodyRaised(Unreachable))
  }

  /** `check_link` run against the web. */
  function Check(w: Web, url: string): Verdict
  {
    var p := PageAt(w, url);
    CheckLink(url, p.head, p.get, p.browser)
  }

  /** A page is crawled through when its check answered 200; its links are then
      read from its text, if fetching the text did not raise. */
  predicate Answered200(w: Web, url: string)
  {
    Check(w, url).status == Code(200)
  }

  // ---------------------------------------------------------------------
  // Links
  // ---------------------------------------------------------------------

  /** Where the crawler sends a link: nowhere (resolving it raised), to the
      frontier (same netloc as the base URL) or to the external check. */
  datatype LinkClass = Broken(error: string) | InternalLink(url: string) | ExternalLink(url: string)

  /** The link resolved against the base URL and normalised, and compared by
      netloc with the base URL as given (not normalised). */
  function Classify(w: Web, base: string, href: string): (c: LinkClass)
    ensures c.Broken? ==> c.error == InvalidIpv6
    ensures !c.Broken? ==> NormalizeUrl(w.join(base, href)) == Some(c.url)
    ensures c.InternalLink? <==> (NormalizeUrl(w.join(base, href)).Some? && NetlocOf(base).Some?
                                    && NetlocOf(NormalizeUrl(w.join(base, href)).value) == NetlocOf(base))
    ensures c.ExternalLink? ==> NetlocOf(c.url).Some? && NetlocOf(base).Some? && NetlocOf(c.url) != NetlocOf(base)
  {
    match NormalizeUrl(w.join(base, href))
    case None => Broken(InvalidIpv6)
    case Some(a) =>
      match NetlocOf(a)
      case None => Broken(InvalidIpv6)
      case Some(n) =>
        match NetlocOf(base)
        case None => Broken(InvalidIpv6)
        case Some(b) => if n == b then InternalLink(a) else ExternalLink(a)
  }

  /** The URLs a list of links sends to the frontier. */
  function InternalTargets(w: Web, base: string, hrefs: seq<string>): (t: set<string>)
    ensures forall h :: h in hrefs && Classify(w, base, h).InternalLink? ==> Classify(w, base, h).url in t
  {
    set h | h in hrefs && Classify(w, base, h).InternalLink? :: Classify(w, base, h).url
  }

  // ---------------------------------------------------------------------
  // Records
  // ---------------------------------------------------------------------

  function LinkErrorDetails(href: string, error: string): string
  {
    "Error processing link " + href + ": " + error
  }

  function HtmlErrorDetails(url: string, error: string): string
  {
    "Error processing HTML from " + url + ": " + error
  }

  /** `store_error`: status "error", the given type and details. */
  function ErrorRecord(url: string, parent: Option<string>, details: string, kind: LinkType): Record
  {
    Record(url, Error, kind, parent, Some(details))
  }

  /** The record of a checked page: its final URL, status and details. */
  function CheckedRecord(v: Verdict, kind: LinkType, parent: Option<string>): Record
  {
    Record(v.finalUrl, v.status, kind, parent, Some(v.details))
  }

  // ---------------------------------------------------------------------
  // The state of a crawl and the state after each step
  // ---------------------------------------------------------------------

  /** `visited_urls`, `to_visit`, `checked_external` and the task's result list. */
  datatype CrawlState = CrawlState(visited: set<string>, toVisit: seq<Entry>, checked: set<string>, log: seq<Record>)

  /** `s` grew into `t` the way every step lets it grow: the frontier and
      the result list only by appending, the external set only by adding. */
  predicate Extends(s: CrawlState, t: CrawlState)
  {
    && s.visited <= t.visited
    && |s.toVisit| <= |t.toVisit| && t.toVisit[..|s.toVisit|] == s.toVisit
    && s.checked <= t.checked
    && |s.log| <= |t.log| && t.log[..|s.log|] == s.log
  }

  lemma ExtendsTransitive(s: CrawlState, t: CrawlState, u: CrawlState)
    requires Extends(s, t) && Extends(t, u)
    ensures Extends(s, u)
  {
    assert u.toVisit[..|s.toVisit|] == u.toVisit[..|t.toVisit|][..|s.toVisit|];
    assert u.log[..|s.log|] == u.log[..|t.log|][..|s.log|];
  }

  /** Whatever extends `s` once more URLs are marked visited extends `s`. */
  lemma VisitThenExtends(s: CrawlState, visited: set<string>, t: CrawlState)
    requires s.visited <= visited && Extends(s.(visited := visited), t)
    ensures Extends(s, t)
  {
  }

  /** Marking URLs visited and appending one record extends the state. */
  lemma RecordExtends(s: CrawlState, visited: set<string>, r: Record)
    requires s.visited <= visited
    ensures Extends(s, s.(visited := visited, log := s.log + [r]))
  {
    assert (s.log + [r])[..|s.log|] == s.log;
    assert s.toVisit[..|s.toVisit|] == s.toVisit;
  }

  /** One link of a page at `pageUrl`. */
  function AfterLink(w: Web, base: string, s: CrawlState, pageUrl: string, href: string): (t: CrawlState)
    ensures Extends(s, t) && t.visited == s.visited
  {
    match Classify(w, base, href)
    case Broken(e) =>
      s.(log := s.log + [ErrorRecord(href, Some(pageUrl), LinkErrorDetails(href, e), Internal)])
    case InternalLink(a) =>
      if a in s.visited then s else s.(toVisit := s.toVisit + [Entry(a, Some(pageUrl))])
    case ExternalLink(a) =>
      if a in s.checked then s
      else s.(checked := s.checked + {a}, log := s.log + [CheckedRecord(Check(w, a), External, Some(pageUrl))])
  }

  /** The links of a page, in order. */
  function AfterLinks(w: Web, base: string, s: CrawlState, pageUrl: string, hrefs: seq<string>): (t: CrawlState)
    ensures Extends(s, t) && t.visited == s.visited
    decreases |hrefs|
  {
    if hrefs == [] then s
    else
      var mid := AfterLinks(w, base, s, pageUrl, hrefs[..|hrefs| - 1]);
      var t := AfterLink(w, base, mid, pageUrl, hrefs[|hrefs| - 1]);
      ExtendsTransitive(s, mid, t);
      t
  }

  /** `fetch_and_process_url` from its first `await` on, for an entry whose
      URL it has marked visited: the URL is checked and its record pushed, and
      when it answered 200 its page text is fetched and its links processed. */
  function AfterPage(w: Web, base: string, s: CrawlState, e: Entry): (t: CrawlState)
    ensures Extends(s, t) && t.visited == s.visited
  {
    var v := Check(w, e.url);
    var s1 := s.(log := s.log + [CheckedRecord(v, Internal, e.parent)]);
    RecordExtends(s, s.visited, CheckedRecord(v, Internal, e.parent));
    if v.status != Code(200) then s1
    else
      match PageAt(w, e.url).body
      case BodyRaised(m) =>
        RecordExtends(s1, s.visited, ErrorRecord(e.url, e.parent, HtmlErrorDetails(e.url, m), Internal));
        ExtendsTransitive(s, s1, s1.(log := s1.log + [ErrorRecord(e.url, e.parent, HtmlErrorDetails(e.url, m), Internal)]));
        s1.(log := s1.log + [ErrorRecord(e.url, e.parent, HtmlErrorDetails(e.url, m), Internal)])
      case Links(hrefs) =>
        var t := AfterLinks(w, base, s1, e.url, hrefs);
        ExtendsTransitive(s, s1, t);
        t
  }

  /** `fetch_and_process_url` for one frontier entry, run on its own: a URL
      already visited is skipped; otherwise it is marked visited, then handled
      as `AfterPage` says. */
  function AfterFetch(w: Web, base: string, s: CrawlState, e: Entry): (t: CrawlState)
    ensures Extends(s, t) && t.visited == s.visited + {e.url}
  {
    if e.url in s.visited then s
    else
      var marked := s.(visited := s.visited + {e.url});
      VisitThenExtends(s, marked.visited, AfterPage(w, base, marked, e));
      AfterPage(w, base, marked, e)
  }

  /** The entries that passed the visited check, run to the end one after
      another. */
  function AfterPages(w: Web, base: string, s: CrawlState, entries: seq<Entry>): (t: CrawlState)
    ensures Extends(s, t) && t.visited == s.visited
    decreases |entries|
  {
    if entries == [] then s
    else
      var mid := AfterPages(w, base, s, entries[..|entries| - 1]);
      var t := AfterPage(w, base, mid, entries[|entries| - 1]);
      ExtendsTransitive(s, mid, t);
      t
  }

  lemma PagesSnoc(w: Web, base: string, s: CrawlState, entries: seq<Entry>, j: nat)
    requires j < |entries|
    ensures AfterPages(w, base, s, entries[..j + 1]) == AfterPage(w, base, AfterPages(w, base, s, entries[..j]), entries[j])
  {
    assert entries[..j + 1][..j] == entries[..j];
  }

  /** One batch under `asyncio.gather`: every entry's visited check and mark
      run before any GET is sent, so the whole batch is marked visited first;
      the entries that got past the check then run to the end one after
      another, in batch order. */
  function AfterBatch(w: Web, base: string, s: CrawlState, batch: seq<Entry>): (t: CrawlState)
    ensures Extends(s, t) && t.visited == s.visited + Urls(batch)
  {
    var marked := s.(visited := s.visited + Urls(batch));
    var t := AfterPages(w, base, marked, Claimed(s.visited, batch));
    VisitThenExtends(s, marked.visited, t);
    t
  }

  /** A lone entry is fetched as `fetch_and_process_url` run on its own would. */
  lemma SingleEntryBatch(w: Web, base: string, s: CrawlState, e: Entry)
    ensures AfterBatch(w, base, s, [e]) == AfterFetch(w, base, s, e)
  {
    UrlsSingleton(e);
    assert [e][..0] == [];
    if e.url !in s.visited {
      assert Claimed(s.visited, [e]) == [e];
      assert AfterPages(w, base, s.(visited := s.visited + {e.url}), [e])
          == AfterPage(w, base, s.(visited := s.visited + {e.url}), e);
    }
  }

  /** What a page pushes: first its own record, with the final URL, status and
      details of the check and the entry's parent; nothing more unless the
      check answered 200; then the HTML error, or what its links push. */
  lemma PageRecords(w: Web, base: string, s: CrawlState, e: Entry)
    ensures var t := AfterPage(w, base, s, e); var v := Check(w, e.url);
      && |s.log| < |t.log|
      && t.log[|s.log|] == Record(v.finalUrl, v.status, Internal, e.parent, Some(v.details))
    ensures !Answered200(w, e.url) ==>
      AfterPage(w, base, s, e) == s.(log := s.log + [CheckedRecord(Check(w, e.url), Internal, e.parent)])
    ensures Answered200(w, e.url) && PageAt(w, e.url).body.BodyRaised? ==>
      AfterPage(w, base, s, e)
        == s.(log := s.log + [CheckedRecord(Check(w, e.url), Internal, e.parent),
                              ErrorRecord(e.url, e.parent, HtmlErrorDetails(e.url, PageAt(w, e.url).body.error), Internal)])
    ensures Answered200(w, e.url) && PageAt(w, e.url).body.Links? ==>
      AfterPage(w, base, s, e)
        == AfterLinks(w, base, s.(log := s.log + [CheckedRecord(Check(w, e.url), Internal, e.parent)]), e.url,
                      PageAt(w, e.url).body.hrefs)
  {
    var r := CheckedRecord(Check(w, e.url), Internal, e.parent);
    var s1 := s.(log := s.log + [r]);
    var t := AfterPage(w, base, s, e);
    assert Extends(s1, t) by {
      if Answered200(w, e.url) && PageAt(w, e.url).body.BodyRaised? {
        RecordExtends(s1, s1.visited, ErrorRecord(e.url, e.parent, HtmlErrorDetails(e.url, PageAt(w, e.url).body.error), Internal));
      }
    }
    FirstRecord(s.log, r, t.log);
    if Answered200(w, e.url) && PageAt(w, e.url).body.BodyRaised? {
      var m := PageAt(w, e.url).body.error;
      assert s.log + [r] + [ErrorRecord(e.url, e.parent, HtmlErrorDetails(e.url, m), Internal)]
          == s.log + [r, ErrorRecord(e.url, e.parent, HtmlErrorDetails(e.url, m), Internal)];
    }
  }

  lemma FirstRecord(log: seq<Record>, r: Record, longer: seq<Record>)
    requires |log + [r]| <= |longer| && longer[..|log + [r]|] == log + [r]
    ensures |log| < |longer| && longer[|log|] == r
  {
    assert longer[|log|] == longer[..|log + [r]|][|log|];
  }

  /** What one link does: a link that fails to resolve pushes its error
      record; an internal one not visited is queued with the page as parent;
      an external one not checked yet is checked once and its record pushed. */
  lemma LinkEffects(w: Web, base: string, s: CrawlState, pageUrl: string, href: string)
    ensures var t := AfterLink(w, base, s, pageUrl, href);
      match Classify(w, base, href)
      case Broken(m) =>
        t == s.(log := s.log + [ErrorRecord(href, Some(pageUrl), LinkErrorDetails(href, m), Internal)])
      case InternalLink(a) =>
        && (a in s.visited ==> t == s)
        && (a !in s.visited ==> t == s.(toVisit := s.toVisit + [Entry(a, Some(pageUrl))]))
      case ExternalLink(a) =>
        && (a in s.checked ==> t == s)
        && (a !in s.checked ==> t == s.(checked := s.checked + {a},
                                        log := s.log + [CheckedRecord(Check(w, a), External, Some(pageUrl))]))
  {
  }

  /** Every entry appended to the frontier between `s` and `t` has a URL
      outside `visited`. */
  predicate QueuesOutside(s: CrawlState, t: CrawlState, visited: set<string>)
  {
    forall i :: |s.toVisit| <= i < |t.toVisit| ==> t.toVisit[i].url !in visited
  }

  /** Every record and every entry appended between `s` and `t` has
      `pageUrl` as its parent. */
  predicate NamesParent(s: CrawlState, t: CrawlState, pageUrl: string)
  {
    && (forall i :: |s.log| <= i < |t.log| ==> t.log[i].parent == Some(pageUrl))
    && (forall i :: |s.toVisit| <= i < |t.toVisit| ==> t.toVisit[i].parent == Some(pageUrl))
  }

  lemma AppendedCompose(s: CrawlState, mid: CrawlState, t: CrawlState, pageUrl: string, visited: set<string>)
    requires Extends(s, mid) && Extends(mid, t)
    ensures QueuesOutside(s, mid, visited) && QueuesOutside(mid, t, visited) ==> QueuesOutside(s, t, visited)
    ensures NamesParent(s, mid, pageUrl) && NamesParent(mid, t, pageUrl) ==> NamesParent(s, t, pageUrl)
  {
    assert forall i :: |s.toVisit| <= i < |mid.toVisit| ==> t.toVisit[i] == t.toVisit[..|mid.toVisit|][i];
    assert forall i :: |s.log| <= i < |mid.log| ==> t.log[i] == t.log[..|mid.log|][i];
  }

  lemma LinkNamesItsPage(w: Web, base: string, s: CrawlState, pageUrl: string, href: string)
    ensures NamesParent(s, AfterLink(w, base, s, pageUrl, href), pageUrl)
    ensures QueuesOutside(s, AfterLink(w, base, s, pageUrl, href), s.visited)
  {
    var t := AfterLink(w, base, s, pageUrl, href);
    LinkAppends(w, base, s, pageUrl, href);
    var c := Classify(w, base, href);
    if c.InternalLink? && c.url !in s.visited {
      assert t.toVisit == s.toVisit + [Entry(c.url, Some(pageUrl))];
    }
  }

  /** A link appends at most one record and at most one entry, and not both. */
  lemma LinkAppends(w: Web, base: string, s: CrawlState, pageUrl: string, href: string)
    ensures var t := AfterLink(w, base, s, pageUrl, href);
      || t == s
      || (Classify(w, base, href).InternalLink? && Classify(w, base, href).url !in s.visited
          && t.toVisit == s.toVisit + [Entry(Classify(w, base, href).url, Some(pageUrl))] && t.log == s.log)
      || (t.toVisit == s.toVisit && exists r :: t.log == s.log + [r] && r.parent == Some(pageUrl))
  {
    var t := AfterLink(w, base, s, pageUrl, href);
    match Classify(w, base, href)
    case Broken(m) =>
      assert t.log == s.log + [ErrorRecord(href, Some(pageUrl), LinkErrorDetails(href, m), Internal)];
    case InternalLink(a) =>
    case ExternalLink(a) =>
      if a !in s.checked {
        assert t.log == s.log + [CheckedRecord(Check(w, a), External, Some(pageUrl))];
      }
  }

  /** Every record a page's links push and every entry they queue names the
      page as its parent, and every queued URL was not visited. */
  lemma {:induction false} LinksNameTheirPage(w: Web, base: string, s: CrawlState, pageUrl: string, hrefs: seq<string>)
    ensures NamesParent(s, AfterLinks(w, base, s, pageUrl, hrefs), pageUrl)
    ensures QueuesOutside(s, AfterLinks(w, base, s, pageUrl, hrefs), s.visited)
    decreases |hrefs|
  {
    if hrefs != [] {
      var init := hrefs[..|hrefs| - 1];
      LinksNameTheirPage(w, base, s, pageUrl, init);
      var mid := AfterLinks(w, base, s, pageUrl, init);
      var t := AfterLink(w, base, mid, pageUrl, hrefs[|hrefs| - 1]);
      LinkNamesItsPage(w, base, mid, pageUrl, hrefs[|hrefs| - 1]);
      AppendedCompose(s, mid, t, pageUrl, s.visited);
    }
  }

  /** A page queues only URLs that were not visited when it ran. */
  lemma PageQueuesOnlyUnvisited(w: Web, base: string, s: CrawlState, e: Entry)
    ensures QueuesOutside(s, AfterPage(w, base, s, e), s.visited)
  {
    if Answered200(w, e.url) && PageAt(w, e.url).body.Links? {
      var s1 := s.(log := s.log + [CheckedRecord(Check(w, e.url), Internal, e.parent)]);
      LinksNameTheirPage(w, base, s1, e.url, PageAt(w, e.url).body.hrefs);
    }
  }

  // ---------------------------------------------------------------------
  // Termination of the traversal
  // ---------------------------------------------------------------------

  /** The seed: the normalised base URL, when it normalises. */
  function Seeds(base: string): (s: set<string>)
    ensures NormalizeUrl(base).Some? ==> NormalizeUrl(base).value in s
  {
    match NormalizeUrl(base)
    case None => {}
    case Some(u) => {u}
  }

  /** Every URL the frontier can ever hold: the seed and the internal link
      targets of the pages of the web. The web is finite, so this set is too,
      and the visited set can grow only that far. */
  ghost function Known(w: Web, base: string): set<string>
  {
    Seeds(base)
    + set u, h | u in w.pages && w.pages[u].body.Links? && h in w.pages[u].body.hrefs
                 && Classify(w, base, h).InternalLink? :: Classify(w, base, h).url
  }

  ghost predicate Bounded(w: Web, base: string, s: CrawlState)
  {
    s.visited <= Known(w, base) && Urls(s.toVisit) <= Known(w, base)
  }

  lemma {:induction false} LinksStayKnown(w: Web, base: string, s: CrawlState, pageUrl: string, hrefs: seq<string>)
    ensures Urls(AfterLinks(w, base, s, pageUrl, hrefs).toVisit) <= Urls(s.toVisit) + InternalTargets(w, base, hrefs)
    decreases |hrefs|
  {
    if hrefs != [] {
      var init := hrefs[..|hrefs| - 1];
      var last := hrefs[|hrefs| - 1];
      LinksStayKnown(w, base, s, pageUrl, init);
      var mid := AfterLinks(w, base, s, pageUrl, init);
      OneLinkStaysKnown(w, base, mid, pageUrl, last);
      InternalTargetsSnoc(w, base, hrefs);
    }
  }

  lemma OneLinkStaysKnown(w: Web, base: string, s: CrawlState, pageUrl: string, h: string)
    ensures Urls(AfterLink(w, base, s, pageUrl, h).toVisit) <= Urls(s.toVisit) + InternalTargets(w, base, [h])
  {
    var t := AfterLink(w, base, s, pageUrl, h);
    if t.toVisit != s.toVisit {
      var c := Classify(w, base, h);
      assert c.InternalLink? && t.toVisit == s.toVisit + [Entry(c.url, Some(pageUrl))];
      OwnTarget(w, base, h);
      UrlsAppend(s.toVisit, Entry(c.url, Some(pageUrl)));
    }
  }

  /** An internal link is among the internal targets of itself. */
  lemma OwnTarget(w: Web, base: string, h: string)
    requires Classify(w, base, h).InternalLink?
    ensures Classify(w, base, h).url in InternalTargets(w, base, [h])
  {
    assert h in [h];
  }

  lemma InternalTargetsSnoc(w: Web, base: string, hrefs: seq<string>)
    requires hrefs != []
    ensures InternalTargets(w, base, hrefs[..|hrefs| - 1]) + InternalTargets(w, base, [hrefs[|hrefs| - 1]])
            <= InternalTargets(w, base, hrefs)
  {
    var init := hrefs[..|hrefs| - 1];
    forall u | u in InternalTargets(w, base, init) ensures u in InternalTargets(w, base, hrefs) {
      var h :| h in init && Classify(w, base, h).InternalLink? && Classify(w, base, h).url == u;
    }
    forall u | u in InternalTargets(w, base, [hrefs[|hrefs| - 1]]) ensures u in InternalTargets(w, base, hrefs) {
      assert hrefs[|hrefs| - 1] in hrefs;
    }
  }

  lemma PageStaysKnown(w: Web, base: string, s: CrawlState, e: Entry)
    requires Bounded(w, base, s)
    ensures Bounded(w, base, AfterPage(w, base, s, e))
  {
    if Answered200(w, e.url) && PageAt(w, e.url).body.Links? {
      var hrefs := PageAt(w, e.url).body.hrefs;
      var s1 := s.(log := s.log + [CheckedRecord(Check(w, e.url), Internal, e.parent)]);
      LinksStayKnown(w, base, s1, e.url, hrefs);
      assert e.url in w.pages;
      forall u | u in InternalTargets(w, base, hrefs) ensures u in Known(w, base) {
        var h :| h in hrefs && Classify(w, base, h).InternalLink? && Classify(w, base, h).url == u;
      }
    }
  }

  lemma {:induction false} PagesStayKnown(w: Web, base: string, s: CrawlState, entries: seq<Entry>)
    requires Bounded(w, base, s)
    ensures Bounded(w, base, AfterPages(w, base, s, entries))
    decreases |entries|
  {
    if entries != [] {
      PagesStayKnown(w, base, s, entries[..|entries| - 1]);
      PageStaysKnown(w, base, AfterPages(w, base, s, entries[..|entries| - 1]), entries[|entries| - 1]);
    }
  }

  lemma BatchStaysKnown(w: Web, base: string, s: CrawlState, batch: seq<Entry>)
    requires Bounded(w, base, s) && Urls(batch) <= Known(w, base)
    ensures Bounded(w, base, AfterBatch(w, base, s, batch))
  {
    PagesStayKnown(w, base, s.(visited := s.visited + Urls(batch)), Claimed(s.visited, batch));
  }

  /** A batch whose URLs were all visited already changes nothing. */
  lemma VisitedBatchIsSkipped(w: Web, base: string, s: CrawlState, batch: seq<Entry>)
    requires Urls(batch) <= s.visited
    ensures AfterBatch(w, base, s, batch) == s
  {
    NoneClaimed(s.visited, batch);
    assert s.(visited := s.visited + Urls(batch)) == s;
  }

  /** During a batch the visited set does not change after the marking, so no
      URL of the batch, and none visited before it, is queued again. */
  lemma {:induction false} PagesQueueOnlyUnvisited(w: Web, base: string, s: CrawlState, entries: seq<Entry>)
    ensures QueuesOutside(s, AfterPages(w, base, s, entries), s.visited)
    decreases |entries|
  {
    if entries != [] {
      var init := entries[..|entries| - 1];
      PagesQueueOnlyUnvisited(w, base, s, init);
      var mid := AfterPages(w, base, s, init);
      PageQueuesOnlyUnvisited(w, base, mid, entries[|entries| - 1]);
      AppendedCompose(s, mid, AfterPage(w, base, mid, entries[|entries| - 1]), "", s.visited);
    }
  }

  /** A link on a page of the batch to another URL of the batch is not queued:
      that URL was marked visited before any page of the batch was read. */
  lemma BatchQueuesNoneOfItsOwn(w: Web, base: string, s: CrawlState, batch: seq<Entry>)
    ensures QueuesOutside(s, AfterBatch(w, base, s, batch), s.visited + Urls(batch))
  {
    PagesQueueOnlyUnvisited(w, base, s.(visited := s.visited + Urls(batch)), Claimed(s.visited, batch));
  }

  lemma {:induction false} SubsetCard(a: set<string>, b: set<string>)
    requires a <= b
    ensures |a| <= |b|
    decreases |a|
  {
    if a != {} {
      var y :| y in a;
      SubsetCard(a - {y}, b - {y});
    }
  }

  lemma SmallerRemainder(k: set<string>, a: set<string>, b: set<string>)
    requires a <= b <= k && a != b
    ensures |k - b| < |k - a|
  {
    var x :| x in b && x !in a;
    SubsetCard(k - b, (k - a) - {x});
  }

  /** The (first `k`) batch is taken off the frontier and processed. */
  function AfterTaking(w: Web, base: string, s: CrawlState, k: nat): CrawlState
    requires k <= |s.toVisit|
  {
    AfterBatch(w, base, s.(toVisit := s.toVisit[k..]), s.toVisit[..k])
  }

  lemma UrlsSingleton(e: Entry)
    ensures Urls([e]) == {e.url}
  {
    assert [e][0] == e;
  }

  lemma UrlsSplit(q: seq<Entry>, k: nat)
    requires k <= |q|
    ensures Urls(q) == Urls(q[..k]) + Urls(q[k..])
  {
    forall u | u in Urls(q) ensures u in Urls(q[..k]) + Urls(q[k..]) {
      var i :| 0 <= i < |q| && q[i].url == u;
      if i < k { assert q[..k][i] == q[i]; } else { assert q[k..][i - k] == q[i]; }
    }
  }

  /** One round of the traversal keeps the frontier inside `Known` and makes
      progress: the visited set grows, or it stays and the frontier shrinks. */
  lemma RoundProgress(w: Web, base: string, s: CrawlState, k: nat)
    requires Bounded(w, base, s) && 0 < k <= |s.toVisit|
    ensures var t := AfterTaking(w, base, s, k);
      && Bounded(w, base, t)
      && (|Known(w, base) - t.visited| < |Known(w, base) - s.visited|
          || (t.visited == s.visited && |t.toVisit| < |s.toVisit|))
  {
    var s1 := s.(toVisit := s.toVisit[k..]);
    var batch := s.toVisit[..k];
    UrlsSplit(s.toVisit, k);
    BatchStaysKnown(w, base, s1, batch);
    var t := AfterTaking(w, base, s, k);
    if t.visited == s.visited {
      VisitedBatchIsSkipped(w, base, s1, batch);
    } else {
      SmallerRemainder(Known(w, base), s.visited, t.visited);
    }
  }

  /** What a round keeps: the visited set, the rest of the frontier, the external
      set and the result list, and it visits the batch it took. */
  lemma RoundKeepsQueue(w: Web, base: string, s: CrawlState, k: nat)
    requires k <= |s.toVisit|
    ensures var t := AfterTaking(w, base, s, k);
      && s.visited + Urls(s.toVisit) <= t.visited + Urls(t.toVisit)
      && s.checked <= t.checked && |s.log| <= |t.log| && t.log[..|s.log|] == s.log
  {
    var t := AfterTaking(w, base, s, k);
    var rest := s.toVisit[k..];
    UrlsSplit(s.toVisit, k);
    assert Urls(rest) <= Urls(t.toVisit) by {
      forall u | u in Urls(rest) ensures u in Urls(t.toVisit) {
        var i :| 0 <= i < |rest| && rest[i].url == u;
        assert t.toVisit[i] == rest[i];
      }
    }
  }

  lemma LogPrefixTrans(a: seq<Record>, b: seq<Record>, c: seq<Record>)
    requires |a| <= |b| && b[..|a|] == a
    requires |b| <= |c| && c[..|b|] == b
    ensures |a| <= |c| && c[..|a|] == a
  {
    assert c[..|a|] == c[..|b|][..|a|];
  }

  /** `while to_visit:` take up to ten entries off the front, process them. The
      frontier ends empty, and every URL visited or queued on the way in is
      visited at the end. */
  function AfterRun(w: Web, base: string, s: CrawlState): (t: CrawlState)
    requires Bounded(w, base, s)
    ensures t.toVisit == [] && Bounded(w, base, t)
    ensures s.visited + Urls(s.toVisit) <= t.visited
    ensures s.checked <= t.checked && |s.log| <= |t.log| && t.log[..|s.log|] == s.log
    decreases |Known(w, base) - s.visited|, |s.toVisit|
  {
    if s.toVisit == [] then s
    else
      var k := BatchLength(|s.toVisit|);
      var next := AfterTaking(w, base, s, k);
      RoundProgress(w, base, s, k);
      RoundKeepsQueue(w, base, s, k);
      var t := AfterRun(w, base, next);
      RunCompose(s, next, t);
      t
  }

  /** One round followed by the rest of the run: what the round kept, the
      rest kept too. */
  lemma RunCompose(s: CrawlState, next: CrawlState, t: CrawlState)
    requires s.visited + Urls(s.toVisit) <= next.visited + Urls(next.toVisit)
    requires s.checked <= next.checked && |s.log| <= |next.log| && next.log[..|s.log|] == s.log
    requires next.visited + Urls(next.toVisit) <= t.visited
    requires next.checked <= t.checked && |next.log| <= |t.log| && t.log[..|next.log|] == next.log
    ensures s.visited + Urls(s.toVisit) <= t.visited
    ensures s.checked <= t.checked && |s.log| <= |t.log| && t.log[..|s.log|] == s.log
  {
    LogPrefixTrans(s.log, next.log, t.log);
  }

  /** The outcome of `async_crawl_website`: the final state, or the message of
      the exception that escaped it. */
  datatype CrawlOutcome = Finished(state: CrawlState) | CrawlRaised(error: string)

  function Fresh(): CrawlState
  {
    CrawlState({}, [], {}, [])
  }

  /** `async_crawl_website`. The seed is normalised before anything else; when
      that raises, the exception escapes with nothing recorded. */
  function Crawl(w: Web, base: string): (r: CrawlOutcome)
    ensures r.CrawlRaised? <==> NormalizeUrl(base).None?
    ensures r.CrawlRaised? ==> r.error == InvalidIpv6
    ensures r.Finished? ==> r.state.toVisit == [] && NormalizeUrl(base).value in r.state.visited
  {
    match NormalizeUrl(base)
    case None => CrawlRaised(InvalidIpv6)
    case Some(seed) =>
      var s0 := Fresh().(toVisit := [Entry(seed, None)]);
      UrlsSingleton(Entry(seed, None));
      Finished(AfterRun(w, base, s0))
  }

  // ---------------------------------------------------------------------
  // The crawler, updating its state in place
  // ---------------------------------------------------------------------

  /** The sets and lists `async_crawl_website` shares with every
      `fetch_and_process_url` it starts, and the task's result list. */
  class Crawler {
    const web: Web
    const base: string
    var visited: set<string>
    var toVisit: seq<Entry>
    var checked: set<string>
    var log: seq<Record>

    function State(): CrawlState
      reads this
    {
      CrawlState(visited, toVisit, checked, log)
    }

    constructor (web: Web, base: string)
      ensures this.web == web && this.base == base && State() == Fresh()
    {
      this.web := web;
      this.base := base;
      visited, toVisit, checked, log := {}, [], {}, [];
    }

    /** `store_error`: one error record appended, nothing else changed. */
    method StoreError(url: string, parent: Option<string>, details: string, kind: LinkType)
      modifies this
      ensures State() == old(State()).(log := old(log) + [ErrorRecord(url, parent, details, kind)])
    {
      log := log + [ErrorRecord(url, parent, details, kind)];
    }

    /** `check_external_link`: the link checked and its record appended. */
    method CheckExternalLink(url: string, parent: string)
      modifies this
      ensures State() == old(State()).(log := old(log) + [CheckedRecord(Check(web, url), External, Some(parent))])
    {
      var p := PageAt(web, url);
      var v := CheckLink(url, p.head, p.get, p.browser);
      log := log + [CheckedRecord(v, External, Some(parent))];
    }

    /** The body of the loop over a page's links. */
    method ProcessLink(pageUrl: string, href: string)
      modifies this
      ensures State() == AfterLink(web, base, old(State()), pageUrl, href)
    {
      match Classify(web, base, href)
      case Broken(e) =>
        StoreError(href, Some(pageUrl), LinkErrorDetails(href, e), Internal);
      case InternalLink(a) =>
        if a !in visited {
          toVisit := toVisit + [Entry(a, Some(pageUrl))];
        }
      case ExternalLink(a) =>
        if a !in checked {
          checked := checked + {a};
          CheckExternalLink(a, pageUrl);
        }
    }

    /** The part of `fetch_and_process_url` before its first `await`: the
        visited check and the mark. Returns whether the task goes on. */
    method ClaimUrl(url: string) returns (runs: bool)
      modifies this
      ensures runs <==> url !in old(visited)
      ensures visited == old(visited) + {url}
      ensures toVisit == old(toVisit) && checked == old(checked) && log == old(log)
    {
      runs := url !in visited;
      visited := visited + {url};
    }

    /** The rest of `fetch_and_process_url`, from `check_link` on. */
    method ProcessPage(url: string, parent: Option<string>)
      modifies this
      ensures State() == AfterPage(web, base, old(State()), Entry(url, parent))
    {
      var p := PageAt(web, url);
      var v := CheckLink(url, p.head, p.get, p.browser);
      log := log + [CheckedRecord(v, Internal, parent)];
      if v.status == Code(200) {
        match p.body
        case BodyRaised(m) =>
          StoreError(url, parent, HtmlErrorDetails(url, m), Internal);
        case Links(hrefs) =>
          ghost var s1 := State();
          var i := 0;
          while i < |hrefs|
            invariant 0 <= i <= |hrefs|
            invariant State() == AfterLinks(web, base, s1, url, hrefs[..i])
          {
            ProcessLink(url, hrefs[i]);
            assert hrefs[..i + 1][..i] == hrefs[..i];
            i := i + 1;
          }
          assert hrefs[..|hrefs|] == hrefs;
      }
    }

    /** `fetch_and_process_url`, run on its own. */
    method FetchAndProcessUrl(url: string, parent: Option<string>)
      modifies this
      ensures State() == AfterFetch(web, base, old(State()), Entry(url, parent))
    {
      var runs := ClaimUrl(url);
      if runs {
        ProcessPage(url, parent);
      }
    }

    /** `asyncio.gather` over the tasks of one batch: each task runs up to its
        first `await` in batch order, so every visited check and mark comes
        first; the tasks that go on then finish one after another. */
    method GatherBatch(batch: seq<Entry>)
      modifies this
      ensures State() == AfterBatch(web, base, old(State()), batch)
    {
      var running := ClaimBatch(batch);
      ProcessPages(running);
    }

    /** The visited checks and marks of a batch, in batch order. Returns the
        entries whose task goes on. */
    method ClaimBatch(batch: seq<Entry>) returns (running: seq<Entry>)
      modifies this
      ensures running == Claimed(old(visited), batch)
      ensures State() == old(State()).(visited := old(visited) + Urls(batch))
    {
      ghost var s1 := State();
      running := [];
      var i := 0;
      assert batch[..0] == [];
      while i < |batch|
        invariant ClaimedUpTo(s1.visited, batch, i, visited, running)
        invariant toVisit == s1.toVisit && checked == s1.checked && log == s1.log
      {
        ClaimStep(s1.visited, batch, i, visited, running);
        var runs := ClaimUrl(batch[i].url);
        if runs {
          running := running + [batch[i]];
        }
        i := i + 1;
      }
      assert batch[..|batch|] == batch;
    }

    /** The claimed tasks of a batch, each run to its end. */
    method ProcessPages(entries: seq<Entry>)
      modifies this
      ensures State() == AfterPages(web, base, old(State()), entries)
    {
      ghost var marked := State();
      var j := 0;
      while j < |entries|
        invariant 0 <= j <= |entries|
        invariant State() == AfterPages(web, base, marked, entries[..j])
      {
        PagesSnoc(web, base, marked, entries, j);
        ProcessPage(entries[j].url, entries[j].parent);
        j := j + 1;
      }
      assert entries[..|entries|] == entries;
    }

    /** `async_crawl_website`, started on a fresh crawler. Returns the message
        of the exception that escapes it, if one does. */
    method AsyncCrawlWebsite() returns (raised: Option<string>)
      requires State() == Fresh()
      modifies this
      ensures Crawl(web, base) == if raised.Some? then CrawlRaised(raised.value) else Finished(State())
      ensures raised.Some? ==> State() == Fresh()
    {
      var seed := NormalizeUrl(base);
      if seed.None? {
        return Some(InvalidIpv6);
      }
      toVisit := [Entry(seed.value, None)];
      UrlsSingleton(Entry(seed.value, None));
      ghost var s0 := State();
      while toVisit != []
        invariant Bounded(web, base, State())
        invariant AfterRun(web, base, State()) == AfterRun(web, base, s0)
        decreases |Known(web, base) - visited|, |toVisit|
      {
        ghost var before := State();
        var k := BatchLength(|toVisit|);
        var batch := toVisit[..k];
        toVisit := toVisit[k..];
        GatherBatch(batch);
        assert State() == AfterTaking(web, base, before, k);
        RoundProgress(web, base, before, k);
      }
      return None;
    }
  }
}
