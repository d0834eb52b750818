/** What the full crawler's traversal guarantees: it stays on the base URL's
    host, checks each external URL once, and ends with every internal link of
    every page it crawled through visited. */
module CrawlerProofs {
  import opened Types
  import opened UrlUtils
  import opened LinkCheck
  import opened Crawler

  // ---------------------------------------------------------------------
  // Staying on the host, and one record per external URL
  // ---------------------------------------------------------------------

  /** Same netloc as the base URL as given. */
  predicate IsInternal(base: string, u: string)
  {
    NetlocOf(u).Some? && NetlocOf(u) == NetlocOf(base)
  }

  predicate IsExternal(base: string, u: string)
  {
    NetlocOf(u).Some? && NetlocOf(base).Some? && NetlocOf(u) != NetlocOf(base)
  }

  /** A URL the frontier may hold: the seed or an internal URL. */
  predicate Admissible(base: string, u: string)
  {
    u in Seeds(base) || IsInternal(base, u)
  }

  /** Only admissible URLs are visited or queued, only external ones are
      checked, and there is one External record per checked URL. */
  ghost predicate Sound(base: string, s: CrawlState)
  {
    && (forall u :: u in s.visited ==> Admissible(base, u))
    && (forall i :: 0 <= i < |s.toVisit| ==> Admissible(base, s.toVisit[i].url))
    && (forall a :: a in s.checked ==> IsExternal(base, a))
    && CountKind(s.log, External) == |s.checked|
  }

  lemma CountOne(r: Record, kind: LinkType)
    ensures CountKind([r], kind) == if r.kind == kind then 1 else 0
  {
    assert [r][..0] == [];
  }

  /** Where `Classify` sends a link agrees with the host test. */
  lemma ClassifyHost(w: Web, base: string, href: string)
    ensures Classify(w, base, href).InternalLink? ==> IsInternal(base, Classify(w, base, href).url)
    ensures Classify(w, base, href).ExternalLink? ==> IsExternal(base, Classify(w, base, href).url)
  {
  }

  /** Appending a record of another kind than External keeps the count. */
  lemma LogInternal(log: seq<Record>, r: Record)
    requires r.kind == Internal
    ensures CountKind(log + [r], External) == CountKind(log, External)
  {
    CountKindAppend(log, [r], External);
    CountOne(r, External);
  }

  lemma LogExternal(log: seq<Record>, r: Record)
    requires r.kind == External
    ensures CountKind(log + [r], External) == CountKind(log, External) + 1
  {
    CountKindAppend(log, [r], External);
    CountOne(r, External);
  }

  lemma QueueAdmissible(base: string, q: seq<Entry>, e: Entry)
    requires forall i :: 0 <= i < |q| ==> Admissible(base, q[i].url)
    requires Admissible(base, e.url)
    ensures forall i :: 0 <= i < |q + [e]| ==> Admissible(base, (q + [e])[i].url)
  {
  }

  lemma LinkSound(w: Web, base: string, s: CrawlState, pageUrl: string, href: string)
    requires Sound(base, s)
    ensures Sound(base, AfterLink(w, base, s, pageUrl, href))
  {
    var c := Classify(w, base, href);
    ClassifyHost(w, base, href);
    match c
    case Broken(e) =>
      RecordSound(base, s, ErrorRecord(href, Some(pageUrl), LinkErrorDetails(href, e), Internal));
    case InternalLink(a) =>
      if a !in s.visited { QueueSound(base, s, Entry(a, Some(pageUrl))); }
    case ExternalLink(a) =>
      if a !in s.checked { ExternalSound(base, s, a, CheckedRecord(Check(w, a), External, Some(pageUrl))); }
  }

  /** An Internal record keeps the invariant. */
  lemma RecordSound(base: string, s: CrawlState, r: Record)
    requires Sound(base, s) && r.kind == Internal
    ensures Sound(base, s.(log := s.log + [r]))
  {
    LogInternal(s.log, r);
  }

  /** Queueing an admissible URL keeps the invariant. */
  lemma QueueSound(base: string, s: CrawlState, e: Entry)
    requires Sound(base, s) && Admissible(base, e.url)
    ensures Sound(base, s.(toVisit := s.toVisit + [e]))
  {
    QueueAdmissible(base, s.toVisit, e);
  }

  /** Checking a new external URL, with its one External record, keeps the invariant. */
  lemma ExternalSound(base: string, s: CrawlState, a: string, r: Record)
    requires Sound(base, s) && IsExternal(base, a) && a !in s.checked && r.kind == External
    ensures Sound(base, s.(checked := s.checked + {a}, log := s.log + [r]))
  {
    LogExternal(s.log, r);
  }

  lemma {:induction false} LinksSound(w: Web, base: string, s: CrawlState, pageUrl: string, hrefs: seq<string>)
    requires Sound(base, s)
    ensures Sound(base, AfterLinks(w, base, s, pageUrl, hrefs))
    decreases |hrefs|
  {
    if hrefs != [] {
      LinksSound(w, base, s, pageUrl, hrefs[..|hrefs| - 1]);
      LinkSound(w, base, AfterLinks(w, base, s, pageUrl, hrefs[..|hrefs| - 1]), pageUrl, hrefs[|hrefs| - 1]);
    }
  }

  /** A page keeps the invariant: it visits nothing new, queues only
      internal links and checks only external ones. */
  lemma PageSound(w: Web, base: string, s: CrawlState, e: Entry)
    requires Sound(base, s)
    ensures Sound(base, AfterPage(w, base, s, e))
  {
    var v := Check(w, e.url);
    var r := CheckedRecord(v, Internal, e.parent);
    var s1 := s.(log := s.log + [r]);
    LogInternal(s.log, r);
    assert Sound(base, s1);
    if v.status == Code(200) {
      match PageAt(w, e.url).body
      case BodyRaised(m) =>
        LogInternal(s1.log, ErrorRecord(e.url, e.parent, HtmlErrorDetails(e.url, m), Internal));
      case Links(hrefs) =>
        LinksSound(w, base, s1, e.url, hrefs);
    }
  }

  lemma {:induction false} PagesSound(w: Web, base: string, s: CrawlState, entries: seq<Entry>)
    requires Sound(base, s)
    ensures Sound(base, AfterPages(w, base, s, entries))
    decreases |entries|
  {
    if entries != [] {
      PagesSound(w, base, s, entries[..|entries| - 1]);
      PageSound(w, base, AfterPages(w, base, s, entries[..|entries| - 1]), entries[|entries| - 1]);
    }
  }

  lemma BatchSound(w: Web, base: string, s: CrawlState, batch: seq<Entry>)
    requires Sound(base, s)
    requires forall i :: 0 <= i < |batch| ==> Admissible(base, batch[i].url)
    ensures Sound(base, AfterBatch(w, base, s, batch))
  {
    var marked := s.(visited := s.visited + Urls(batch));
    forall u | u in marked.visited ensures Admissible(base, u) {
      if u !in s.visited {
        var i :| 0 <= i < |batch| && batch[i].url == u;
      }
    }
    PagesSound(w, base, marked, Claimed(s.visited, batch));
  }

  lemma RoundSound(w: Web, base: string, s: CrawlState, k: nat)
    requires Sound(base, s) && k <= |s.toVisit|
    ensures Sound(base, AfterTaking(w, base, s, k))
  {
    var s1 := s.(toVisit := s.toVisit[k..]);
    assert Sound(base, s1) by {
      forall i | 0 <= i < |s1.toVisit| ensures Admissible(base, s1.toVisit[i].url) {
        assert s1.toVisit[i] == s.toVisit[k + i];
      }
    }
    var batch := s.toVisit[..k];
    forall i | 0 <= i < |batch| ensures Admissible(base, batch[i].url) { assert batch[i] == s.toVisit[i]; }
    BatchSound(w, base, s1, batch);
  }

  lemma {:induction false} RunSound(w: Web, base: string, s: CrawlState)
    requires Bounded(w, base, s) && Sound(base, s)
    ensures Sound(base, AfterRun(w, base, s))
    decreases |Known(w, base) - s.visited|, |s.toVisit|
  {
    if s.toVisit != [] {
      var k := BatchLength(|s.toVisit|);
      RoundProgress(w, base, s, k);
      RoundSound(w, base, s, k);
      RunSound(w, base, AfterTaking(w, base, s, k));
    }
  }

  /** The crawler never leaves the host: every URL it visits is the seed or has
      the base URL's netloc; every URL it checks as external has another
      netloc; and it writes exactly one External record per checked URL, so no
      external URL is checked twice. */
  lemma CrawlStaysOnHost(w: Web, base: string)
    requires Crawl(w, base).Finished?
    ensures var t := Crawl(w, base).state;
      && (forall u :: u in t.visited ==> u in Seeds(base) || IsInternal(base, u))
      && (forall a :: a in t.checked ==> IsExternal(base, a))
      && CountKind(t.log, External) == |t.checked|
  {
    var seed := NormalizeUrl(base).value;
    var s0 := Fresh().(toVisit := [Entry(seed, None)]);
    UrlsSingleton(Entry(seed, None));
    assert Crawl(w, base).state == AfterRun(w, base, s0);
    SeedSound(base, seed);
    RunSound(w, base, s0);
  }

  /** The crawl starts sound: nothing visited or checked, the seed queued. */
  lemma SeedSound(base: string, seed: string)
    requires seed in Seeds(base)
    ensures Sound(base, Fresh().(toVisit := [Entry(seed, None)]))
  {
  }

  // ---------------------------------------------------------------------
  // Closure: every internal link of a crawled page is visited
  // ---------------------------------------------------------------------

  /** The check of `u` answered 200 and its text was fetched. */
  predicate Crawled(w: Web, u: string)
  {
    Answered200(w, u) && PageAt(w, u).body.Links?
  }

  function Hrefs(w: Web, u: string): seq<string>
    requires PageAt(w, u).body.Links?
  {
    PageAt(w, u).body.hrefs
  }

  /** A link was dealt with: its internal target is visited, queued or about
      to be fetched (`pending`), its external target checked. */
  ghost predicate LinkCovered(w: Web, base: string, s: CrawlState, pending: set<string>, h: string)
  {
    match Classify(w, base, h)
    case Broken(_) => true
    case InternalLink(a) => a in s.visited || a in Urls(s.toVisit) || a in pending
    case ExternalLink(a) => a in s.checked
  }

  /** Every link of every crawled visited page was dealt with. */
  ghost predicate Covered(w: Web, base: string, s: CrawlState, pending: set<string>)
  {
    forall u, h :: u in s.visited && Crawled(w, u) && h in Hrefs(w, u) ==> LinkCovered(w, base, s, pending, h)
  }

  lemma UrlsPrefix(q: seq<Entry>, r: seq<Entry>)
    requires |q| <= |r| && r[..|q|] == q
    ensures Urls(q) <= Urls(r)
  {
    forall u | u in Urls(q) ensures u in Urls(r) {
      var i :| 0 <= i < |q| && q[i].url == u;
      assert r[i] == q[i];
    }
  }

  lemma CoveredGrows(w: Web, base: string, s: CrawlState, t: CrawlState, pending: set<string>, h: string)
    requires LinkCovered(w, base, s, pending, h) && Extends(s, t)
    ensures LinkCovered(w, base, t, pending, h)
  {
    UrlsPrefix(s.toVisit, t.toVisit);
  }

  /** Processing a link deals with it. */
  lemma LinkCoversItself(w: Web, base: string, s: CrawlState, pageUrl: string, h: string)
    ensures LinkCovered(w, base, AfterLink(w, base, s, pageUrl, h), {}, h)
  {
    var c := Classify(w, base, h);
    if c.InternalLink? && c.url !in s.visited {
      var t := AfterLink(w, base, s, pageUrl, h);
      assert t.toVisit == s.toVisit + [Entry(c.url, Some(pageUrl))];
      assert t.toVisit[|s.toVisit|].url == c.url;
    }
  }

  /** Every link of a page is dealt with once the page's links are processed. */
  lemma {:induction false} LinksCovered(w: Web, base: string, s: CrawlState, pageUrl: string, hrefs: seq<string>)
    ensures forall h :: h in hrefs ==> LinkCovered(w, base, AfterLinks(w, base, s, pageUrl, hrefs), {}, h)
    decreases |hrefs|
  {
    if hrefs != [] {
      var init := hrefs[..|hrefs| - 1];
      LinksCovered(w, base, s, pageUrl, init);
      assert hrefs == init + [hrefs[|hrefs| - 1]];
      LinksCoveredStep(w, base, s, pageUrl, init, hrefs[|hrefs| - 1]);
    }
  }

  lemma LinksCoveredStep(w: Web, base: string, s: CrawlState, pageUrl: string, init: seq<string>, last: string)
    requires forall h :: h in init ==> LinkCovered(w, base, AfterLinks(w, base, s, pageUrl, init), {}, h)
    ensures forall h :: h in init + [last] ==> LinkCovered(w, base, AfterLinks(w, base, s, pageUrl, init + [last]), {}, h)
  {
    var hrefs := init + [last];
    assert hrefs[..|hrefs| - 1] == init;
    var mid := AfterLinks(w, base, s, pageUrl, init);
    var t := AfterLink(w, base, mid, pageUrl, last);
    assert AfterLinks(w, base, s, pageUrl, hrefs) == t;
    forall h | h in hrefs ensures LinkCovered(w, base, t, {}, h) {
      if h == last {
        LinkCoversItself(w, base, mid, pageUrl, h);
      } else {
        CoveredGrows(w, base, mid, t, {}, h);
      }
    }
  }

  /** `Covered`, except for the visited pages in `todo`, whose links are
      still to be read. */
  ghost predicate CoveredExcept(w: Web, base: string, s: CrawlState, pending: set<string>, todo: set<string>)
  {
    forall u, h :: u in s.visited && u !in todo && Crawled(w, u) && h in Hrefs(w, u) ==>
      LinkCovered(w, base, s, pending, h)
  }

  /** Processing a page deals with its links, and keeps every link dealt with
      before. */
  lemma PageCovered(w: Web, base: string, s: CrawlState, pending: set<string>, todo: set<string>, e: Entry)
    requires CoveredExcept(w, base, s, pending, todo + {e.url})
    ensures CoveredExcept(w, base, AfterPage(w, base, s, e), pending, todo)
  {
    var t := AfterPage(w, base, s, e);
    forall u, h | u in t.visited && u !in todo && Crawled(w, u) && h in Hrefs(w, u)
      ensures LinkCovered(w, base, t, pending, h)
    {
      if u != e.url {
        CoveredGrows(w, base, s, t, pending, h);
      } else {
        var s1 := s.(log := s.log + [CheckedRecord(Check(w, e.url), Internal, e.parent)]);
        LinksCovered(w, base, s1, e.url, Hrefs(w, u));
        assert LinkCovered(w, base, t, {}, h);
      }
    }
  }

  lemma {:induction false} PagesCovered(w: Web, base: string, s: CrawlState, pending: set<string>, todo: set<string>,
                                        entries: seq<Entry>)
    requires CoveredExcept(w, base, s, pending, todo + Urls(entries))
    ensures CoveredExcept(w, base, AfterPages(w, base, s, entries), pending, todo)
    decreases |entries|
  {
    if entries == [] {
      assert todo + Urls(entries) == todo;
    } else {
      var init := entries[..|entries| - 1];
      var last := entries[|entries| - 1];
      UrlsSnoc(entries);
      assert todo + Urls(entries) == (todo + {last.url}) + Urls(init);
      PagesCovered(w, base, s, pending, todo + {last.url}, init);
      PageCovered(w, base, AfterPages(w, base, s, init), pending, todo, last);
    }
  }

  /** A batch deals with the links of every page it reads. Its URLs are
      pending before it and visited after its marking, so a link to one of
      them stays dealt with. */
  lemma BatchCovered(w: Web, base: string, s: CrawlState, pending: set<string>, batch: seq<Entry>)
    requires Covered(w, base, s, pending + Urls(batch))
    ensures Covered(w, base, AfterBatch(w, base, s, batch), pending)
  {
    var marked := s.(visited := s.visited + Urls(batch));
    var claimed := Claimed(s.visited, batch);
    assert CoveredExcept(w, base, marked, pending, {} + Urls(claimed)) by {
      forall u, h | u in marked.visited && u !in Urls(claimed) && Crawled(w, u) && h in Hrefs(w, u)
        ensures LinkCovered(w, base, marked, pending, h)
      {
        assert LinkCovered(w, base, s, pending + Urls(batch), h);
      }
    }
    PagesCovered(w, base, marked, pending, {}, claimed);
    var t := AfterBatch(w, base, s, batch);
    forall u, h | u in t.visited && Crawled(w, u) && h in Hrefs(w, u)
      ensures LinkCovered(w, base, t, pending, h)
    {
      assert u !in {};
    }
  }

  lemma RoundCovered(w: Web, base: string, s: CrawlState, k: nat)
    requires Covered(w, base, s, {}) && k <= |s.toVisit|
    ensures Covered(w, base, AfterTaking(w, base, s, k), {})
  {
    var s1 := s.(toVisit := s.toVisit[k..]);
    var batch := s.toVisit[..k];
    UrlsSplit(s.toVisit, k);
    assert Covered(w, base, s1, {} + Urls(batch)) by {
      forall u, h | u in s1.visited && Crawled(w, u) && h in Hrefs(w, u)
        ensures LinkCovered(w, base, s1, {} + Urls(batch), h)
      {
        assert LinkCovered(w, base, s, {}, h);
      }
    }
    BatchCovered(w, base, s1, {}, batch);
  }

  lemma {:induction false} RunCovered(w: Web, base: string, s: CrawlState)
    requires Bounded(w, base, s) && Covered(w, base, s, {})
    ensures Covered(w, base, AfterRun(w, base, s), {})
    decreases |Known(w, base) - s.visited|, |s.toVisit|
  {
    if s.toVisit != [] {
      var k := BatchLength(|s.toVisit|);
      RoundProgress(w, base, s, k);
      RoundCovered(w, base, s, k);
      RunCovered(w, base, AfterTaking(w, base, s, k));
    }
  }

  /** The crawl is complete: for every visited page that answered 200 and
      whose text was fetched, each internal link target is visited and each
      external one was checked. */
  lemma CrawlIsClosed(w: Web, base: string, u: string, h: string)
    requires Crawl(w, base).Finished?
    requires u in Crawl(w, base).state.visited && Crawled(w, u) && h in Hrefs(w, u)
    ensures var t := Crawl(w, base).state;
      && (Classify(w, base, h).InternalLink? ==> Classify(w, base, h).url in t.visited)
      && (Classify(w, base, h).ExternalLink? ==> Classify(w, base, h).url in t.checked)
  {
    var seed := NormalizeUrl(base).value;
    var s0 := Fresh().(toVisit := [Entry(seed, None)]);
    UrlsSingleton(Entry(seed, None));
    RunCovered(w, base, s0);
    assert LinkCovered(w, base, Crawl(w, base).state, {}, h);
  }

  /** `u` links to `a`: `u` was crawled through and one of its links is an
      internal link to `a`. */
  ghost predicate LinksTo(w: Web, base: string, u: string, a: string)
  {
    Crawled(w, u) && exists h :: h in Hrefs(w, u) && Classify(w, base, h) == InternalLink(a)
  }

  /** Every page reachable from the seed through internal links of pages that
      answered 200 is visited. */
  lemma {:induction false} ReachableIsVisited(w: Web, base: string, path: seq<string>)
    requires Crawl(w, base).Finished?
    requires |path| > 0 && path[0] == NormalizeUrl(base).value
    requires forall i :: 0 < i < |path| ==> LinksTo(w, base, path[i - 1], path[i])
    ensures path[|path| - 1] in Crawl(w, base).state.visited
    decreases |path|
  {
    if |path| > 1 {
      var init := path[..|path| - 1];
      forall i | 0 < i < |init| ensures LinksTo(w, base, init[i - 1], init[i]) {
        assert init[i - 1] == path[i - 1] && init[i] == path[i];
      }
      ReachableIsVisited(w, base, init);
      var u, a := path[|path| - 2], path[|path| - 1];
      assert LinksTo(w, base, u, a);
      var h :| h in Hrefs(w, u) && Classify(w, base, h) == InternalLink(a);
      CrawlIsClosed(w, base, u, h);
    }
  }

  /** A URL already visited is never fetched again: processing its entry a
      second time changes nothing, alone or in a batch. */
  lemma FetchIsOnce(w: Web, base: string, s: CrawlState, e: Entry, parent: Option<string>)
    ensures var t := AfterFetch(w, base, s, e);
      AfterFetch(w, base, t, Entry(e.url, parent)) == t
    ensures var t := AfterBatch(w, base, s, [e]);
      AfterBatch(w, base, t, [Entry(e.url, parent)]) == t
  {
    SingleEntryBatch(w, base, s, e);
    SingleEntryBatch(w, base, AfterFetch(w, base, s, e), Entry(e.url, parent));
  }
}
