/** The earlier, GET-only crawler. Each frontier URL is fetched once with a
    GET; its normalised final URL is recorded and also marked visited; on
    status 200 its links are resolved against the base URL and sorted into
    internal (queued) and external (checked once with a GET). Any exception
    while handling a page ends that page's handling with one error record.
    It runs on the same web model as the full crawler, of which it reads
    only the GET outcome and the page's links. */
module Tasks {
  import opened Types
  import opened UrlUtils
  import opened LinkCheck
  import opened Crawler

  /** The status recorded for a GET: its status code, or "error" when it raised. */
  function GetStatus(o: HttpOutcome): (st: Status)
    ensures o.Response? ==> st == Code(o.status)
    ensures o.Raised? ==> st == Error
  {
    match o
    case Response(code, _) => Code(code)
    case Raised(_) => Error
  }

  /** `check_external_link`: one "external" record for the requested URL. */
  function ExternalRecord(w: Web, url: string, parent: string): (r: Record)
    ensures r.url == url && r.kind == External && r.parent == Some(parent) && r.details == None
    ensures r.status == Error <==> PageAt(w, url).get.Raised?
  {
    Record(url, GetStatus(PageAt(w, url).get), External, Some(parent), None)
  }

  /** The record written when handling a requested URL raised. */
  function FailureRecord(url: string, parent: Option<string>): Record
  {
    Record(url, Error, Internal, parent, None)
  }

  /** The normalised final URL the GET of `url` ended on, if it answered and
      that URL normalises. */
  function Redirect(w: Web, url: string): (r: Option<string>)
    ensures r.Some? ==> PageAt(w, url).get.Response? && NormalizeUrl(PageAt(w, url).get.url) == r
  {
    match PageAt(w, url).get
    case Raised(_) => None
    case Response(_, raw) => NormalizeUrl(raw)
  }

  function OptionSet(o: Option<string>): set<string>
  {
    if o.Some? then {o.value} else {}
  }

  /** The external records in the result list keep pace with the external set:
      `t` added as many of each as `s` had. */
  predicate ExternalsKeepPace(s: CrawlState, t: CrawlState)
  {
    s.checked <= t.checked && CountKind(t.log, External) + |s.checked| == CountKind(s.log, External) + |t.checked|
  }

  lemma KeepPaceTransitive(s: CrawlState, t: CrawlState, u: CrawlState)
    requires ExternalsKeepPace(s, t) && ExternalsKeepPace(t, u)
    ensures ExternalsKeepPace(s, u)
  {
  }

  lemma ExternalKeepsPace(s: CrawlState, a: string, r: Record)
    requires a !in s.checked && r.kind == External
    ensures ExternalsKeepPace(s, s.(checked := s.checked + {a}, log := s.log + [r]))
  {
    CountKindAppendOne(s.log, r, External);
  }

  lemma InternalKeepsPace(s: CrawlState, visited: set<string>, r: Record)
    requires r.kind == Internal
    ensures ExternalsKeepPace(s, s.(visited := visited, log := s.log + [r]))
  {
    CountKindAppendOne(s.log, r, External);
  }

  /** One link of a page at `pageUrl`; the flag says that resolving it raised,
      which ends the handling of the page. */
  function AfterTaskLink(w: Web, base: string, s: CrawlState, pageUrl: string, href: string): (r: (CrawlState, bool))
    ensures Extends(s, r.0) && r.0.visited == s.visited && ExternalsKeepPace(s, r.0)
    ensures r.1 <==> Classify(w, base, href).Broken?
    ensures r.1 ==> r.0 == s
  {
    match Classify(w, base, href)
    case Broken(_) => (s, true)
    case InternalLink(a) =>
      (if a in s.visited then s else s.(toVisit := s.toVisit + [Entry(a, Some(pageUrl))]), false)
    case ExternalLink(a) =>
      if a in s.checked then (s, false)
      else
        ExternalKeepsPace(s, a, ExternalRecord(w, a, pageUrl));
        (s.(checked := s.checked + {a}, log := s.log + [ExternalRecord(w, a, pageUrl)]), false)
  }

  /** The links of a page, in order, up to the first one that raises. */
  function AfterTaskLinks(w: Web, base: string, s: CrawlState, pageUrl: string, hrefs: seq<string>)
    : (r: (CrawlState, bool))
    ensures Extends(s, r.0) && r.0.visited == s.visited && ExternalsKeepPace(s, r.0)
    decreases |hrefs|
  {
    if hrefs == [] then (s, false)
    else
      var (t, raised) := AfterTaskLink(w, base, s, pageUrl, hrefs[0]);
      if raised then (t, true)
      else
        var r := AfterTaskLinks(w, base, t, pageUrl, hrefs[1..]);
        ExtendsTransitive(s, t, r.0);
        KeepPaceTransitive(s, t, r.0);
        r
  }

  /** Handling a page's links raises exactly when one of them fails to resolve. */
  lemma {:induction false} LinksRaiseIffOneIsBroken(w: Web, base: string, s: CrawlState, pageUrl: string,
                                                    hrefs: seq<string>)
    ensures AfterTaskLinks(w, base, s, pageUrl, hrefs).1 <==> SomeBroken(w, base, hrefs)
    decreases |hrefs|
  {
    if hrefs != [] {
      BrokenHeadOrTail(w, base, hrefs);
      var (t, raised) := AfterTaskLink(w, base, s, pageUrl, hrefs[0]);
      if !raised {
        LinksRaiseIffOneIsBroken(w, base, t, pageUrl, hrefs[1..]);
      }
    }
  }

  /** Some link of the list fails to resolve. */
  predicate SomeBroken(w: Web, base: string, hrefs: seq<string>)
  {
    exists i :: 0 <= i < |hrefs| && Classify(w, base, hrefs[i]).Broken?
  }

  lemma BrokenHeadOrTail(w: Web, base: string, hrefs: seq<string>)
    requires hrefs != []
    ensures SomeBroken(w, base, hrefs) <==> Classify(w, base, hrefs[0]).Broken? || SomeBroken(w, base, hrefs[1..])
  {
    if SomeBroken(w, base, hrefs[1..]) {
      var j :| 0 <= j < |hrefs[1..]| && Classify(w, base, hrefs[1..][j]).Broken?;
      assert hrefs[1..][j] == hrefs[j + 1];
    }
    if SomeBroken(w, base, hrefs) && !Classify(w, base, hrefs[0]).Broken? {
      var j :| 0 <= j < |hrefs| && Classify(w, base, hrefs[j]).Broken?;
      assert hrefs[1..][j - 1] == hrefs[j];
    }
    if Classify(w, base, hrefs[0]).Broken? {
      assert 0 < |hrefs|;
    }
  }

  /** The first link of `done + rest` is the first link of `done`, and the
      links after it are the rest of `done` followed by `rest`. */
  lemma LinksStep(w: Web, base: string, s: CrawlState, pageUrl: string, done: seq<string>, rest: seq<string>)
    requires done != []
    ensures var (t, raised) := AfterTaskLink(w, base, s, pageUrl, done[0]);
      && AfterTaskLinks(w, base, s, pageUrl, done)
         == (if raised then (t, true) else AfterTaskLinks(w, base, t, pageUrl, done[1..]))
      && AfterTaskLinks(w, base, s, pageUrl, done + rest)
         == (if raised then (t, true) else AfterTaskLinks(w, base, t, pageUrl, done[1..] + rest))
  {
    assert (done + rest)[0] == done[0];
    assert (done + rest)[1..] == done[1..] + rest;
  }

  /** Once a link has raised, the links after it change nothing. */
  lemma {:induction false} RaisedLinkEndsThePage(w: Web, base: string, s: CrawlState, pageUrl: string,
                                                 done: seq<string>, rest: seq<string>)
    requires AfterTaskLinks(w, base, s, pageUrl, done).1
    ensures AfterTaskLinks(w, base, s, pageUrl, done + rest) == AfterTaskLinks(w, base, s, pageUrl, done)
    decreases |done|
  {
    LinksStep(w, base, s, pageUrl, done, rest);
    var r := AfterTaskLink(w, base, s, pageUrl, done[0]);
    if !r.1 {
      RaisedLinkEndsThePage(w, base, r.0, pageUrl, done[1..], rest);
    }
  }

  /** What one link does: a link that fails to resolve aborts the page and
      changes nothing; an internal one not visited is queued with the page as
      parent; an external one not checked yet is checked once and its record
      pushed. */
  lemma TaskLinkEffects(w: Web, base: string, s: CrawlState, pageUrl: string, href: string)
    ensures var r := AfterTaskLink(w, base, s, pageUrl, href);
      match Classify(w, base, href)
      case Broken(_) => r == (s, true)
      case InternalLink(a) =>
        && (a in s.visited ==> r == (s, false))
        && (a !in s.visited ==> r == (s.(toVisit := s.toVisit + [Entry(a, Some(pageUrl))]), false))
      case ExternalLink(a) =>
        && (a in s.checked ==> r == (s, false))
        && (a !in s.checked ==> r == (s.(checked := s.checked + {a},
                                         log := s.log + [ExternalRecord(w, a, pageUrl)]), false))
  {
  }

  lemma TaskLinkNamesItsPage(w: Web, base: string, s: CrawlState, pageUrl: string, href: string)
    ensures NamesParent(s, AfterTaskLink(w, base, s, pageUrl, href).0, pageUrl)
    ensures QueuesOutside(s, AfterTaskLink(w, base, s, pageUrl, href).0, s.visited)
  {
    var t := AfterTaskLink(w, base, s, pageUrl, href).0;
    match Classify(w, base, href)
    case Broken(_) =>
    case InternalLink(a) =>
      if a !in s.visited {
        assert t.toVisit == s.toVisit + [Entry(a, Some(pageUrl))] && t.log == s.log;
      }
    case ExternalLink(a) =>
      if a !in s.checked {
        assert t.log == s.log + [ExternalRecord(w, a, pageUrl)] && t.toVisit == s.toVisit;
      }
  }

  /** Every record a page's links push and every entry they queue names the
      page as its parent, and every queued URL was not visited. */
  lemma {:induction false} TaskLinksNameTheirPage(w: Web, base: string, s: CrawlState, pageUrl: string,
                                                  hrefs: seq<string>)
    ensures NamesParent(s, AfterTaskLinks(w, base, s, pageUrl, hrefs).0, pageUrl)
    ensures QueuesOutside(s, AfterTaskLinks(w, base, s, pageUrl, hrefs).0, s.visited)
    decreases |hrefs|
  {
    if hrefs != [] {
      var (t, raised) := AfterTaskLink(w, base, s, pageUrl, hrefs[0]);
      TaskLinkNamesItsPage(w, base, s, pageUrl, hrefs[0]);
      if !raised {
        var r := AfterTaskLinks(w, base, t, pageUrl, hrefs[1..]).0;
        TaskLinksNameTheirPage(w, base, t, pageUrl, hrefs[1..]);
        AppendedCompose(s, t, r, pageUrl, s.visited);
      }
    }
  }

  /** Every internal target of `hrefs` is visited or queued in `t`, and every
      external target is in `t`'s checked set. */
  ghost predicate LinksCovered(w: Web, base: string, visited: set<string>, t: CrawlState, hrefs: seq<string>)
  {
    forall h :: h in hrefs ==>
      match Classify(w, base, h)
      case Broken(_) => true
      case InternalLink(a) => a in visited + Urls(t.toVisit)
      case ExternalLink(a) => a in t.checked
  }

  /** A later state that extends `t` covers whatever `t` covered. */
  lemma CoveredExtends(w: Web, base: string, visited: set<string>, t: CrawlState, u: CrawlState, hrefs: seq<string>)
    requires Extends(t, u) && LinksCovered(w, base, visited, t, hrefs)
    ensures LinksCovered(w, base, visited, u, hrefs)
  {
    assert u.toVisit == t.toVisit + u.toVisit[|t.toVisit|..];
    forall e | e in t.toVisit ensures e.url in Urls(u.toVisit) {
      var i :| 0 <= i < |t.toVisit| && t.toVisit[i] == e;
      assert u.toVisit[i] == e;
    }
  }

  /** A link that does not raise covers its own target. */
  lemma OneLinkCovered(w: Web, base: string, s: CrawlState, pageUrl: string, href: string)
    ensures LinksCovered(w, base, s.visited, AfterTaskLink(w, base, s, pageUrl, href).0, [href])
  {
    var c := Classify(w, base, href);
    if c.InternalLink? && c.url !in s.visited {
      UrlsAppend(s.toVisit, Entry(c.url, Some(pageUrl)));
    }
  }

  lemma CoveredCons(w: Web, base: string, visited: set<string>, t: CrawlState, hrefs: seq<string>)
    requires hrefs != []
    requires LinksCovered(w, base, visited, t, [hrefs[0]]) && LinksCovered(w, base, visited, t, hrefs[1..])
    ensures LinksCovered(w, base, visited, t, hrefs)
  {
    forall x | x in hrefs ensures x in [hrefs[0]] || x in hrefs[1..] {
      var i :| 0 <= i < |hrefs| && hrefs[i] == x;
      if i > 0 {
        assert hrefs[1..][i - 1] == x;
      }
    }
  }

  /** When no link raises, every internal target of the page ends up visited
      or queued, and every external target checked. */
  lemma {:induction false} TaskLinksCoverTheirTargets(w: Web, base: string, s: CrawlState, pageUrl: string,
                                                      hrefs: seq<string>)
    requires !AfterTaskLinks(w, base, s, pageUrl, hrefs).1
    ensures LinksCovered(w, base, s.visited, AfterTaskLinks(w, base, s, pageUrl, hrefs).0, hrefs)
    decreases |hrefs|
  {
    if hrefs != [] {
      LinksStep(w, base, s, pageUrl, hrefs, []);
      var t := AfterTaskLink(w, base, s, pageUrl, hrefs[0]).0;
      var r := AfterTaskLinks(w, base, t, pageUrl, hrefs[1..]).0;
      assert AfterTaskLinks(w, base, s, pageUrl, hrefs).0 == r;
      TaskLinksCoverTheirTargets(w, base, t, pageUrl, hrefs[1..]);
      OneLinkCovered(w, base, s, pageUrl, hrefs[0]);
      CoveredExtends(w, base, s.visited, t, r, [hrefs[0]]);
      CoveredCons(w, base, s.visited, r, hrefs);
    }
  }

  /** The text of a 200 page with no broken link: every internal target of
      the page is visited or queued, every external one checked, and all that
      is appended names the page and queues only unvisited URLs. */
  lemma BodyEffects(w: Web, base: string, s: CrawlState, e: Entry)
    requires PageAt(w, e.url).body.Links? && !SomeBroken(w, base, PageAt(w, e.url).body.hrefs)
    ensures LinksCovered(w, base, s.visited, AfterBody(w, base, s, e), PageAt(w, e.url).body.hrefs)
    ensures NamesParent(s, AfterBody(w, base, s, e), e.url)
    ensures QueuesOutside(s, AfterBody(w, base, s, e), s.visited)
  {
    var hrefs := PageAt(w, e.url).body.hrefs;
    BodyRecords(w, base, s, e);
    LinksRaiseIffOneIsBroken(w, base, s, e.url, hrefs);
    TaskLinksCoverTheirTargets(w, base, s, e.url, hrefs);
    TaskLinksNameTheirPage(w, base, s, e.url, hrefs);
  }

  /** The links of a page that answered 200, or the error record when its
      text could not be read or one of its links raised. */
  function AfterBody(w: Web, base: string, s: CrawlState, e: Entry): (t: CrawlState)
    ensures Extends(s, t) && ExternalsKeepPace(s, t) && t.visited == s.visited
    ensures Urls(t.toVisit) <= Urls(s.toVisit) + PageTargets(w, base, e.url)
  {
    InternalKeepsPace(s, s.visited, FailureRecord(e.url, e.parent));
    match PageAt(w, e.url).body
    case BodyRaised(_) => s.(log := s.log + [FailureRecord(e.url, e.parent)])
    case Links(hrefs) =>
      var (t, raised) := AfterTaskLinks(w, base, s, e.url, hrefs);
      TaskLinksStayKnown(w, base, s, e.url, hrefs);
      if raised then
        InternalKeepsPace(t, t.visited, FailureRecord(e.url, e.parent));
        ExtendsTransitive(s, t, t.(log := t.log + [FailureRecord(e.url, e.parent)]));
        KeepPaceTransitive(s, t, t.(log := t.log + [FailureRecord(e.url, e.parent)]));
        t.(log := t.log + [FailureRecord(e.url, e.parent)])
      else t
  }

  /** A GET that answered with `status`, ending on the normalised URL `f`:
      `f` is marked visited and recorded, and on 200 the page is read. */
  function AfterResponse(w: Web, base: string, s: CrawlState, e: Entry, status: int, f: string): (t: CrawlState)
    ensures Extends(s, t) && ExternalsKeepPace(s, t) && t.visited == s.visited + {f}
    ensures Urls(t.toVisit) <= Urls(s.toVisit) + PageTargets(w, base, e.url)
  {
    var recorded := Record(f, Code(status), Internal, e.parent, None);
    var s2 := s.(visited := s.visited + {f}, log := s.log + [recorded]);
    InternalKeepsPace(s, s2.visited, recorded);
    if status != 200 then s2
    else
      var t := AfterBody(w, base, s2, e);
      ExtendsTransitive(s, s2, t);
      KeepPaceTransitive(s, s2, t);
      t
  }

  /** `fetch_and_process_url` from its `await client.get` on, for an entry
      whose URL it has marked visited: when the GET answers, its normalised
      final URL is marked visited too and recorded with the status, and on
      200 the page's links are processed. An exception on the way appends one
      error record for the requested URL. */
  function AfterTaskPage(w: Web, base: string, s: CrawlState, e: Entry): (t: CrawlState)
    ensures Extends(s, t) && ExternalsKeepPace(s, t)
    ensures t.visited == s.visited + OptionSet(Redirect(w, e.url))
    ensures Urls(t.toVisit) <= Urls(s.toVisit) + PageTargets(w, base, e.url)
  {
    // the GET raised, or its final URL did not normalise
    match Redirect(w, e.url)
    case None =>
      RecordExtends(s, s.visited, FailureRecord(e.url, e.parent));
      InternalKeepsPace(s, s.visited, FailureRecord(e.url, e.parent));
      s.(log := s.log + [FailureRecord(e.url, e.parent)])
    case Some(f) => AfterResponse(w, base, s, e, PageAt(w, e.url).get.status, f)
  }

  /** `fetch_and_process_url` for one frontier entry, run on its own. A URL
      already visited is skipped; otherwise it is marked visited before the
      GET, then handled as `AfterTaskPage` says. */
  function AfterTaskFetch(w: Web, base: string, s: CrawlState, e: Entry): (t: CrawlState)
    ensures Extends(s, t) && ExternalsKeepPace(s, t)
    ensures e.url in s.visited ==> t == s
    ensures t.visited == if e.url in s.visited then s.visited
                         else s.visited + {e.url} + OptionSet(Redirect(w, e.url))
    ensures Urls(t.toVisit) <= Urls(s.toVisit) + PageTargets(w, base, e.url)
  {
    if e.url in s.visited then s
    else
      var marked := s.(visited := s.visited + {e.url});
      VisitThenExtends(s, marked.visited, AfterTaskPage(w, base, marked, e));
      AfterTaskPage(w, base, marked, e)
  }

  /** What fetching a page records, first of all the final URL's record: on
      a GET that raised or a final URL that does not normalise, only the
      error record; on a status other than 200, only the final URL's record,
      and no link is looked at; on 200, the final URL's record and then what
      reading the page adds (`BodyRecords`). */
  lemma FetchRecords(w: Web, base: string, s: CrawlState, e: Entry)
    ensures Redirect(w, e.url).None? ==>
      AfterTaskPage(w, base, s, e) == s.(log := s.log + [FailureRecord(e.url, e.parent)])
    ensures PageAt(w, e.url).get.Raised? ==> Redirect(w, e.url).None?
    ensures Redirect(w, e.url).Some? ==>
      var f := Redirect(w, e.url).value;
      var recorded := Record(f, Code(PageAt(w, e.url).get.status), Internal, e.parent, None);
      var s2 := s.(visited := s.visited + {f}, log := s.log + [recorded]);
      && AfterTaskPage(w, base, s, e) == (if PageAt(w, e.url).get.status != 200 then s2 else AfterBody(w, base, s2, e))
      && AfterTaskPage(w, base, s, e).log[|s.log|] == recorded
  {
    if Redirect(w, e.url).Some? {
      var f := Redirect(w, e.url).value;
      var recorded := Record(f, Code(PageAt(w, e.url).get.status), Internal, e.parent, None);
      var t := AfterTaskPage(w, base, s, e);
      assert t.log[..|s.log| + 1] == (s.log + [recorded])[..|s.log| + 1];
    }
  }

  /** What reading a page that answered 200 adds: when its text could not be
      read, one error record for the requested URL; otherwise what its links
      add, followed by that error record exactly when one of them failed to
      resolve. */
  lemma BodyRecords(w: Web, base: string, s: CrawlState, e: Entry)
    ensures PageAt(w, e.url).body.BodyRaised? ==>
      AfterBody(w, base, s, e) == s.(log := s.log + [FailureRecord(e.url, e.parent)])
    ensures PageAt(w, e.url).body.Links? ==>
      var r := AfterTaskLinks(w, base, s, e.url, PageAt(w, e.url).body.hrefs);
      AfterBody(w, base, s, e)
        == if SomeBroken(w, base, PageAt(w, e.url).body.hrefs) then r.0.(log := r.0.log + [FailureRecord(e.url, e.parent)])
           else r.0
  {
    if PageAt(w, e.url).body.Links? {
      LinksRaiseIffOneIsBroken(w, base, s, e.url, PageAt(w, e.url).body.hrefs);
    }
  }

  /** The entries that passed the visited check, run to the end one after
      another. */
  function AfterTaskPages(w: Web, base: string, s: CrawlState, entries: seq<Entry>): (t: CrawlState)
    ensures Extends(s, t) && ExternalsKeepPace(s, t)
    decreases |entries|
  {
    if entries == [] then s
    else
      var mid := AfterTaskPages(w, base, s, entries[..|entries| - 1]);
      var t := AfterTaskPage(w, base, mid, entries[|entries| - 1]);
      ExtendsTransitive(s, mid, t);
      KeepPaceTransitive(s, mid, t);
      t
  }

  lemma TaskPagesSnoc(w: Web, base: string, s: CrawlState, entries: seq<Entry>, j: nat)
    requires j < |entries|
    ensures AfterTaskPages(w, base, s, entries[..j + 1])
         == AfterTaskPage(w, base, AfterTaskPages(w, base, s, entries[..j]), entries[j])
  {
    assert entries[..j + 1][..j] == entries[..j];
  }

  /** One batch under `asyncio.gather`: every entry's visited check and mark
      run before any GET is sent, so the whole batch is marked visited first;
      the entries that got past the check then run to the end one after
      another, in batch order. */
  function AfterTaskBatch(w: Web, base: string, s: CrawlState, batch: seq<Entry>): (t: CrawlState)
    ensures Extends(s, t) && ExternalsKeepPace(s, t)
    ensures s.visited + Urls(batch) <= t.visited
  {
    var marked := s.(visited := s.visited + Urls(batch));
    var t := AfterTaskPages(w, base, marked, Claimed(s.visited, batch));
    VisitThenExtends(s, marked.visited, t);
    InternalKeepsPaceOnMark(s, marked.visited, t);
    t
  }

  lemma InternalKeepsPaceOnMark(s: CrawlState, visited: set<string>, t: CrawlState)
    requires ExternalsKeepPace(s.(visited := visited), t)
    ensures ExternalsKeepPace(s, t)
  {
  }

  /** Every entry that runs marks its redirect target visited. */
  lemma {:induction false} PagesVisitTheirTargets(w: Web, base: string, s: CrawlState, entries: seq<Entry>, k: nat)
    requires k < |entries| && Redirect(w, entries[k].url).Some?
    ensures Redirect(w, entries[k].url).value in AfterTaskPages(w, base, s, entries).visited
    decreases |entries|
  {
    var init := entries[..|entries| - 1];
    if k < |entries| - 1 {
      assert init[k] == entries[k];
      PagesVisitTheirTargets(w, base, s, init, k);
    }
  }

  /** A page's redirect target is marked visited on the way, so an entry for
      it dequeued in a later batch is skipped: it is not fetched itself. */
  lemma RedirectTargetIsSkipped(w: Web, base: string, s: CrawlState, batch: seq<Entry>, i: nat, later: seq<Entry>)
    requires i < |batch| && batch[i].url !in s.visited
    requires forall j :: 0 <= j < i ==> batch[j].url != batch[i].url
    requires Redirect(w, batch[i].url).Some?
    requires forall j :: 0 <= j < |later| ==> later[j].url == Redirect(w, batch[i].url).value
    ensures var t := AfterTaskBatch(w, base, s, batch);
      Redirect(w, batch[i].url).value in t.visited && AfterTaskBatch(w, base, t, later) == t
  {
    var claimed := Claimed(s.visited, batch);
    FirstEntryIsClaimed(s.visited, batch, i);
    var k :| 0 <= k < |claimed| && claimed[k] == batch[i];
    PagesVisitTheirTargets(w, base, s.(visited := s.visited + Urls(batch)), claimed, k);
    var t := AfterTaskBatch(w, base, s, batch);
    VisitedTaskBatchIsSkipped(w, base, t, later);
  }

  /** Within one batch the redirect target is not skipped: when `a` redirects
      to `b` and both are in the batch, both were marked visited before
      either GET, so `b` is fetched anyway and, when it answers on its own
      URL, the result list gets two records for `b`. */
  lemma SameBatchTargetIsFetched(w: Web, base: string, s: CrawlState, a: Entry, b: Entry)
    requires a.url != b.url && a.url !in s.visited && b.url !in s.visited
    requires Redirect(w, a.url) == Some(b.url) && Redirect(w, b.url) == Some(b.url)
    requires PageAt(w, a.url).get.status != 200 && PageAt(w, b.url).get.status != 200
    ensures AfterTaskBatch(w, base, s, [a, b]).log
         == s.log + [Record(b.url, Code(PageAt(w, a.url).get.status), Internal, a.parent, None),
                     Record(b.url, Code(PageAt(w, b.url).get.status), Internal, b.parent, None)]
  {
    TwoEntryBatch(w, base, s, a, b);
    var marked := s.(visited := s.visited + {a.url, b.url});
    OnlyTheRecord(w, base, marked, a);
    OnlyTheRecord(w, base, AfterTaskPage(w, base, marked, a), b);
  }

  /** A batch of two entries not visited yet, with different URLs: both are
      marked, then both run. */
  lemma TwoEntryBatch(w: Web, base: string, s: CrawlState, a: Entry, b: Entry)
    requires a.url != b.url && a.url !in s.visited && b.url !in s.visited
    ensures AfterTaskBatch(w, base, s, [a, b])
         == AfterTaskPage(w, base, AfterTaskPage(w, base, s.(visited := s.visited + {a.url, b.url}), a), b)
  {
    ClaimedPair(s.visited, a, b);
    var marked := s.(visited := s.visited + {a.url, b.url});
    assert [a, b][..1] == [a] && [a][..0] == [];
    assert AfterTaskPages(w, base, marked, [a]) == AfterTaskPage(w, base, marked, a);
  }

  /** A GET that answered with a status other than 200 on a final URL that
      normalises: that URL is marked and recorded, nothing else. */
  lemma OnlyTheRecord(w: Web, base: string, s: CrawlState, e: Entry)
    requires Redirect(w, e.url).Some? && PageAt(w, e.url).get.status != 200
    ensures AfterTaskPage(w, base, s, e)
         == s.(visited := s.visited + {Redirect(w, e.url).value},
               log := s.log + [Record(Redirect(w, e.url).value, Code(PageAt(w, e.url).get.status), Internal, e.parent, None)])
  {
  }

  // ---------------------------------------------------------------------
  // Termination of the traversal
  // ---------------------------------------------------------------------

  /** The normalised final URLs of the web's pages. */
  function Redirects(w: Web): set<string>
  {
    set u | u in w.pages && Redirect(w, u).Some? :: Redirect(w, u).value
  }

  /** Every URL this crawler can mark visited or queue: those of the full
      crawler and the redirect targets. */
  ghost function TaskKnown(w: Web, base: string): set<string>
  {
    Known(w, base) + Redirects(w)
  }

  ghost predicate TaskBounded(w: Web, base: string, s: CrawlState)
  {
    s.visited <= TaskKnown(w, base) && Urls(s.toVisit) <= TaskKnown(w, base)
  }

  lemma LinkStaysKnown(w: Web, base: string, s: CrawlState, pageUrl: string, h: string)
    ensures Urls(AfterTaskLink(w, base, s, pageUrl, h).0.toVisit) <= Urls(s.toVisit) + InternalTargets(w, base, [h])
  {
    var t := AfterTaskLink(w, base, s, pageUrl, h).0;
    if t.toVisit != s.toVisit {
      var c := Classify(w, base, h);
      assert c.InternalLink? && t.toVisit == s.toVisit + [Entry(c.url, Some(pageUrl))];
      OwnTarget(w, base, h);
      UrlsAppend(s.toVisit, Entry(c.url, Some(pageUrl)));
    }
  }

  lemma InternalTargetsSplit(w: Web, base: string, hrefs: seq<string>)
    requires hrefs != []
    ensures InternalTargets(w, base, [hrefs[0]]) + InternalTargets(w, base, hrefs[1..]) <= InternalTargets(w, base, hrefs)
  {
    forall u | u in InternalTargets(w, base, hrefs[1..]) ensures u in InternalTargets(w, base, hrefs) {
      var h :| h in hrefs[1..] && Classify(w, base, h).InternalLink? && Classify(w, base, h).url == u;
    }
    forall u | u in InternalTargets(w, base, [hrefs[0]]) ensures u in InternalTargets(w, base, hrefs) {
      assert hrefs[0] in hrefs;
    }
  }

  lemma {:induction false} TaskLinksStayKnown(w: Web, base: string, s: CrawlState, pageUrl: string, hrefs: seq<string>)
    ensures Urls(AfterTaskLinks(w, base, s, pageUrl, hrefs).0.toVisit) <= Urls(s.toVisit) + InternalTargets(w, base, hrefs)
    decreases |hrefs|
  {
    if hrefs != [] {
      LinksStep(w, base, s, pageUrl, hrefs, []);
      var r := AfterTaskLink(w, base, s, pageUrl, hrefs[0]);
      LinkStaysKnown(w, base, s, pageUrl, hrefs[0]);
      InternalTargetsSplit(w, base, hrefs);
      if !r.1 {
        TaskLinksStayKnown(w, base, r.0, pageUrl, hrefs[1..]);
      }
    }
  }

  /** The internal targets of a page of the web's own links. */
  function PageTargets(w: Web, base: string, url: string): set<string>
  {
    if PageAt(w, url).body.Links? then InternalTargets(w, base, PageAt(w, url).body.hrefs) else {}
  }

  lemma PageTargetsKnown(w: Web, base: string, url: string)
    ensures PageTargets(w, base, url) <= Known(w, base)
  {
    if PageAt(w, url).body.Links? {
      assert url in w.pages;
      var hrefs := PageAt(w, url).body.hrefs;
      forall u | u in InternalTargets(w, base, hrefs) ensures u in Known(w, base) {
        var h :| h in hrefs && Classify(w, base, h).InternalLink? && Classify(w, base, h).url == u;
      }
    }
  }

  lemma TaskPageStaysKnown(w: Web, base: string, s: CrawlState, e: Entry)
    requires TaskBounded(w, base, s)
    ensures TaskBounded(w, base, AfterTaskPage(w, base, s, e))
  {
    if Redirect(w, e.url).Some? {
      assert e.url in w.pages;
      assert Redirect(w, e.url).value in Redirects(w);
    }
    PageTargetsKnown(w, base, e.url);
  }

  lemma {:induction false} TaskPagesStayKnown(w: Web, base: string, s: CrawlState, entries: seq<Entry>)
    requires TaskBounded(w, base, s)
    ensures TaskBounded(w, base, AfterTaskPages(w, base, s, entries))
    decreases |entries|
  {
    if entries != [] {
      TaskPagesStayKnown(w, base, s, entries[..|entries| - 1]);
      TaskPageStaysKnown(w, base, AfterTaskPages(w, base, s, entries[..|entries| - 1]), entries[|entries| - 1]);
    }
  }

  lemma TaskBatchStaysKnown(w: Web, base: string, s: CrawlState, batch: seq<Entry>)
    requires TaskBounded(w, base, s) && Urls(batch) <= TaskKnown(w, base)
    ensures TaskBounded(w, base, AfterTaskBatch(w, base, s, batch))
  {
    TaskPagesStayKnown(w, base, s.(visited := s.visited + Urls(batch)), Claimed(s.visited, batch));
  }

  /** A batch whose URLs were all visited already changes nothing. */
  lemma VisitedTaskBatchIsSkipped(w: Web, base: string, s: CrawlState, batch: seq<Entry>)
    requires Urls(batch) <= s.visited
    ensures AfterTaskBatch(w, base, s, batch) == s
  {
    NoneClaimed(s.visited, batch);
    assert s.(visited := s.visited + Urls(batch)) == s;
  }

  /** The first `k` entries are taken off the frontier and processed. */
  function AfterTaskTaking(w: Web, base: string, s: CrawlState, k: nat): CrawlState
    requires k <= |s.toVisit|
  {
    AfterTaskBatch(w, base, s.(toVisit := s.toVisit[k..]), s.toVisit[..k])
  }

  lemma TaskRoundProgress(w: Web, base: string, s: CrawlState, k: nat)
    requires TaskBounded(w, base, s) && 0 < k <= |s.toVisit|
    ensures var t := AfterTaskTaking(w, base, s, k);
      && TaskBounded(w, base, t)
      && (|TaskKnown(w, base) - t.visited| < |TaskKnown(w, base) - s.visited|
          || (t.visited == s.visited && |t.toVisit| < |s.toVisit|))
  {
    var s1 := s.(toVisit := s.toVisit[k..]);
    var batch := s.toVisit[..k];
    UrlsSplit(s.toVisit, k);
    TaskBatchStaysKnown(w, base, s1, batch);
    var t := AfterTaskTaking(w, base, s, k);
    if t.visited == s.visited {
      VisitedTaskBatchIsSkipped(w, base, s1, batch);
    } else {
      SmallerRemainder(TaskKnown(w, base), s.visited, t.visited);
    }
  }

  lemma TaskRoundKeepsQueue(w: Web, base: string, s: CrawlState, k: nat)
    requires k <= |s.toVisit|
    ensures var t := AfterTaskTaking(w, base, s, k);
      && s.visited + Urls(s.toVisit) <= t.visited + Urls(t.toVisit)
      && |s.log| <= |t.log| && t.log[..|s.log|] == s.log
      && ExternalsKeepPace(s, t)
  {
    var t := AfterTaskTaking(w, base, s, k);
    var rest := s.toVisit[k..];
    UrlsSplit(s.toVisit, k);
    assert Urls(rest) <= Urls(t.toVisit) by {
      forall u | u in Urls(rest) ensures u in Urls(t.toVisit) {
        var i :| 0 <= i < |rest| && rest[i].url == u;
        assert t.toVisit[i] == rest[i];
      }
    }
  }

  /** `while to_visit:` in batches of at most ten. The frontier ends empty,
      every URL visited or queued on the way in is visited at the end, and
      the external records keep pace with the external set. */
  function AfterTaskRun(w: Web, base: string, s: CrawlState): (t: CrawlState)
    requires TaskBounded(w, base, s)
    ensures t.toVisit == [] && TaskBounded(w, base, t)
    ensures s.visited + Urls(s.toVisit) <= t.visited
    ensures ExternalsKeepPace(s, t) && |s.log| <= |t.log| && t.log[..|s.log|] == s.log
    decreases |TaskKnown(w, base) - s.visited|, |s.toVisit|
  {
    if s.toVisit == [] then s
    else
      var k := BatchLength(|s.toVisit|);
      var next := AfterTaskTaking(w, base, s, k);
      TaskRoundProgress(w, base, s, k);
      TaskRoundKeepsQueue(w, base, s, k);
      var t := AfterTaskRun(w, base, next);
      RunCompose(s, next, t);
      KeepPaceTransitive(s, next, t);
      t
  }

  /** `async_crawl_website`: the seed is normalised first, and an exception
      from that escapes the task. */
  function TaskCrawl(w: Web, base: string): (r: CrawlOutcome)
    ensures r.CrawlRaised? <==> NormalizeUrl(base).None?
    ensures r.CrawlRaised? ==> r.error == InvalidIpv6
    ensures r.Finished? ==> r.state.toVisit == [] && NormalizeUrl(base).value in r.state.visited
    ensures r.Finished? ==> CountKind(r.state.log, External) == |r.state.checked|
  {
    match NormalizeUrl(base)
    case None => CrawlRaised(InvalidIpv6)
    case Some(seed) =>
      var s0 := Fresh().(toVisit := [Entry(seed, None)]);
      UrlsSingleton(Entry(seed, None));
      Finished(AfterTaskRun(w, base, s0))
  }

  // ---------------------------------------------------------------------
  // The crawler, updating its state in place
  // ---------------------------------------------------------------------

  class TaskCrawler {
    const web: Web
    const base: string
    var visited: set<string>
    var toVisit: seq<Entry>
    var checked: set<string>
    var log: seq<Record>

    function State(): CrawlState
      reads this
    {
      CrawlState(visited, toVisit, checked, log)
    }

    constructor (web: Web, base: string)
      ensures this.web == web && this.base == base && State() == Fresh()
    {
      this.web := web;
      this.base := base;
      visited, toVisit, checked, log := {}, [], {}, [];
    }

    /** `check_external_link`. */
    method CheckExternalLink(url: string, parent: string)
      modifies this
      ensures State() == old(State()).(log := old(log) + [ExternalRecord(web, url, parent)])
    {
      var status := GetStatus(PageAt(web, url).get);
      log := log + [Record(url, status, External, Some(parent), None)];
    }

    /** The body of the loop over a page's links; returns whether it raised. */
    method ProcessLink(pageUrl: string, href: string) returns (raised: bool)
      modifies this
      ensures (State(), raised) == AfterTaskLink(web, base, old(State()), pageUrl, href)
    {
      match Classify(web, base, href)
      case Broken(_) =>
        return true;
      case InternalLink(a) =>
        if a !in visited {
          toVisit := toVisit + [Entry(a, Some(pageUrl))];
        }
        return false;
      case ExternalLink(a) =>
        if a !in checked {
          checked := checked + {a};
          CheckExternalLink(a, pageUrl);
        }
        return false;
    }

    /** The links of a page, stopping at the first that raises. */
    method ProcessLinks(pageUrl: string, hrefs: seq<string>) returns (raised: bool)
      modifies this
      ensures (State(), raised) == AfterTaskLinks(web, base, old(State()), pageUrl, hrefs)
    {
      var i := 0;
      raised := false;
      while i < |hrefs| && !raised
        invariant 0 <= i <= |hrefs|
        invariant AfterTaskLinks(web, base, old(State()), pageUrl, hrefs)
               == if raised then (State(), true) else AfterTaskLinks(web, base, State(), pageUrl, hrefs[i..])
      {
        assert hrefs[i..][0] == hrefs[i] && hrefs[i..][1..] == hrefs[i + 1..];
        raised := ProcessLink(pageUrl, hrefs[i]);
        i := i + 1;
      }
    }

    /** The part of `fetch_and_process_url` before `await client.get`: the
        visited check and the mark. Returns whether the task goes on. */
    method ClaimUrl(url: string) returns (runs: bool)
      modifies this
      ensures runs <==> url !in old(visited)
      ensures visited == old(visited) + {url}
      ensures toVisit == old(toVisit) && checked == old(checked) && log == old(log)
    {
      runs := url !in visited;
      visited := visited + {url};
    }

    /** The rest of `fetch_and_process_url`, from the GET on. */
    method ProcessPage(url: string, parent: Option<string>)
      modifies this
      ensures State() == AfterTaskPage(web, base, old(State()), Entry(url, parent))
    {
      var get := PageAt(web, url).get;
      if get.Raised? {
        log := log + [FailureRecord(url, parent)];
        return;
      }
      var finalUrl := NormalizeUrl(get.url);
      if finalUrl.None? {
        log := log + [FailureRecord(url, parent)];
        return;
      }
      visited := visited + {finalUrl.value};
      log := log + [Record(finalUrl.value, Code(get.status), Internal, parent, None)];
      if get.status == 200 {
        var body := PageAt(web, url).body;
        var raised := true;
        if body.Links? {
          raised := ProcessLinks(url, body.hrefs);
        }
        if raised {
          log := log + [FailureRecord(url, parent)];
        }
      }
    }

    /** `fetch_and_process_url`, run on its own. */
    method FetchAndProcessUrl(url: string, parent: Option<string>)
      modifies this
      ensures State() == AfterTaskFetch(web, base, old(State()), Entry(url, parent))
    {
      var runs := ClaimUrl(url);
      if runs {
        ProcessPage(url, parent);
      }
    }

    /** `asyncio.gather` over the tasks of one batch: each task runs up to its
        GET in batch order, so every visited check and mark comes first; the
        tasks that go on then finish one after another. */
    method GatherBatch(batch: seq<Entry>)
      modifies this
      ensures State() == AfterTaskBatch(web, base, old(State()), batch)
    {
      var running := ClaimBatch(batch);
      ProcessPages(running);
    }

    /** The visited checks and marks of a batch, in batch order. Returns the
        entries whose task goes on. */
    method ClaimBatch(batch: seq<Entry>) returns (running: seq<Entry>)
      modifies this
      ensures running == Claimed(old(visited), batch)
      ensures State() == old(State()).(visited := old(visited) + Urls(batch))
    {
      ghost var s1 := State();
      running := [];
      var i := 0;
      assert batch[..0] == [];
      while i < |batch|
        invariant ClaimedUpTo(s1.visited, batch, i, visited, running)
        invariant toVisit == s1.toVisit && checked == s1.checked && log == s1.log
      {
        ClaimStep(s1.visited, batch, i, visited, running);
        var runs := ClaimUrl(batch[i].url);
        if runs {
          running := running + [batch[i]];
        }
        i := i + 1;
      }
      assert batch[..|batch|] == batch;
    }

    /** The claimed tasks of a batch, each run to its end. */
    method ProcessPages(entries: seq<Entry>)
      modifies this
      ensures State() == AfterTaskPages(web, base, old(State()), entries)
    {
      ghost var marked := State();
      var j := 0;
      while j < |entries|
        invariant 0 <= j <= |entries|
        invariant State() == AfterTaskPages(web, base, marked, entries[..j])
      {
        TaskPagesSnoc(web, base, marked, entries, j);
        ProcessPage(entries[j].url, entries[j].parent);
        j := j + 1;
      }
      assert entries[..|entries|] == entries;
    }

    /** `async_crawl_website`, started on a fresh crawler; returns the message
        of the exception that escapes it, if one does. */
    method AsyncCrawlWebsite() returns (raised: Option<string>)
      requires State() == Fresh()
      modifies this
      ensures TaskCrawl(web, base) == if raised.Some? then CrawlRaised(raised.value) else Finished(State())
    {
      var seed := NormalizeUrl(base);
      if seed.None? {
        return Some(InvalidIpv6);
      }
      toVisit := [Entry(seed.value, None)];
      UrlsSingleton(Entry(seed.value, None));
      ghost var s0 := State();
      while toVisit != []
        invariant TaskBounded(web, base, State())
        invariant AfterTaskRun(web, base, State()) == AfterTaskRun(web, base, s0)
        decreases |TaskKnown(web, base) - visited|, |toVisit|
      {
        ghost var before := State();
        var k := BatchLength(|toVisit|);
        var batch := toVisit[..k];
        toVisit := toVisit[k..];
        GatherBatch(batch);
        assert State() == AfterTaskTaking(web, base, before, k);
        TaskRoundProgress(web, base, before, k);
      }
      return None;
    }
  }

  /** `crawl_website` of the GET-only crawler: the crawl, whose result list is
      the task's, or the exception that escaped it. */
  method CrawlWebsite(w: Web, base: string) returns (r: CrawlOutcome)
    ensures r == TaskCrawl(w, base)
  {
    var crawler := new TaskCrawler(w, base);
    var raised := crawler.AsyncCrawlWebsite();
    if raised.Some? {
      return CrawlRaised(raised.value);
    }
    return Finished(crawler.State());
  }
}
