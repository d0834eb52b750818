/** The background job `crawl_website`: it reports STARTED, checks that the
    browser is installed, runs the crawl, closes this process's WebDriver and
    reports SUCCESS; any exception is recorded as a fatal error record and
    reported as FAILURE. */
module CrawlJob {
  import opened Types
  import opened UrlUtils
  import opened Crawler
  import opened DriverRegistry
  import opened CrawlerProofs

  /** The task states the job reports, in order. */
  datatype JobState = Started | Succeeded | Failed

  /** The dictionary the job returns: completed, or the error's message. */
  datatype TaskResult = Completed | TaskError(error: string)

  /** How the installation check before the crawl went: true, false, or an
      exception with its message. */
  datatype InstallCheck = Installed | NotInstalled | CheckRaised(error: string)

  const FatalPrefix: string := "Fatal error in crawl_website task: "
  const NotInstalledMessage: string := "Firefox is not properly installed"

  /** The record `store_error` appends for the exception that ended the job. */
  function FatalRecord(base: string, error: string): Record
  {
    Record(base, Error, Internal, None, Some(FatalPrefix + error))
  }

  /** The message of the exception the installation check leads to, if any. */
  function InstallError(c: InstallCheck): (e: Option<string>)
    ensures e.None? <==> c.Installed?
    ensures c.NotInstalled? ==> e == Some(NotInstalledMessage)
    ensures c.CheckRaised? ==> e == Some(c.error)
  {
    match c
    case Installed => None
    case NotInstalled => Some(NotInstalledMessage)
    case CheckRaised(m) => Some(m)
  }

  /** What the job does that others can see, in the order it does it:
      reporting a task state, pushing a record onto the task's result list,
      and closing this process's driver registry. */
  datatype JobEvent = Reported(state: JobState) | Pushed(record: Record) | RegistryClosed

  /** Everything the job leaves behind: its events, in order, and the
      dictionary it returned. */
  datatype JobOutcome = JobOutcome(events: seq<JobEvent>, result: TaskResult)

  /** The pushes of a result list, in order. */
  function Pushes(log: seq<Record>): (es: seq<JobEvent>)
    ensures |es| == |log| && forall i :: 0 <= i < |log| ==> es[i] == Pushed(log[i])
    decreases |log|
  {
    if log == [] then [] else [Pushed(log[0])] + Pushes(log[1..])
  }

  /** The records the events pushed, in order. */
  function Log(events: seq<JobEvent>): seq<Record>
    decreases |events|
  {
    if events == [] then []
    else (if events[0].Pushed? then [events[0].record] else []) + Log(events[1..])
  }

  /** The task states the events reported, in order. */
  function States(events: seq<JobEvent>): seq<JobState>
    decreases |events|
  {
    if events == [] then []
    else (if events[0].Reported? then [events[0].state] else []) + States(events[1..])
  }

  lemma {:induction false} LogAppend(a: seq<JobEvent>, b: seq<JobEvent>)
    ensures Log(a + b) == Log(a) + Log(b)
    decreases |a|
  {
    if a == [] {
      assert a + b == b;
    } else {
      assert (a + b)[0] == a[0] && (a + b)[1..] == a[1..] + b;
      LogAppend(a[1..], b);
      var h := if a[0].Pushed? then [a[0].record] else [];
      assert Log(a + b) == h + (Log(a[1..]) + Log(b));
      assert h + (Log(a[1..]) + Log(b)) == (h + Log(a[1..])) + Log(b);
    }
  }

  lemma {:induction false} StatesAppend(a: seq<JobEvent>, b: seq<JobEvent>)
    ensures States(a + b) == States(a) + States(b)
    decreases |a|
  {
    if a == [] {
      assert a + b == b;
    } else {
      assert (a + b)[0] == a[0] && (a + b)[1..] == a[1..] + b;
      StatesAppend(a[1..], b);
      var h := if a[0].Reported? then [a[0].state] else [];
      assert States(a + b) == h + (States(a[1..]) + States(b));
      assert h + (States(a[1..]) + States(b)) == (h + States(a[1..])) + States(b);
    }
  }

  lemma LogOne(e: JobEvent)
    ensures Log([e]) == (if e.Pushed? then [e.record] else [])
    ensures States([e]) == (if e.Reported? then [e.state] else [])
  {
    assert [e][1..] == [];
  }

  /** Pushing a result list pushes exactly its records, and reports nothing. */
  lemma {:induction false} LogOfPushes(log: seq<Record>)
    ensures Log(Pushes(log)) == log && States(Pushes(log)) == []
    decreases |log|
  {
    if log != [] {
      LogOfPushes(log[1..]);
      LogAppend([Pushed(log[0])], Pushes(log[1..]));
      StatesAppend([Pushed(log[0])], Pushes(log[1..]));
      LogOne(Pushed(log[0]));
    }
  }

  /** The events of a job that failed with `e`: STARTED, the fatal record,
      FAILURE. */
  function FailedEvents(base: string, e: string): seq<JobEvent>
  {
    [Reported(Started), Pushed(FatalRecord(base, e)), Reported(Failed)]
  }

  /** The events of a job whose crawl finished in `t`: STARTED, every record
      the crawl pushed, the registry closed, SUCCESS. */
  function CompletedEvents(t: CrawlState): seq<JobEvent>
  {
    [Reported(Started)] + Pushes(t.log) + [RegistryClosed, Reported(Succeeded)]
  }

  /** STARTED comes first and never again; the trace ends reporting `last`
      with `beforeLast` just before it. */
  predicate Ordered(es: seq<JobEvent>, last: JobState, beforeLast: JobEvent)
  {
    && 3 <= |es| && es[0] == Reported(Started)
    && (forall i :: 0 < i < |es| ==> es[i] != Reported(Started))
    && es[|es| - 1] == Reported(last) && es[|es| - 2] == beforeLast
  }

  /** `crawl_website` on a web, a base URL and the outcome of the installation
      check. It reports STARTED before anything else and ends reporting
      SUCCESS or FAILURE; the registry is closed, after every record of the
      crawl and just before SUCCESS, only when the job completed; a failed
      job pushes its fatal record just before FAILURE, and nothing else. */
  function RunJob(w: Web, base: string, install: InstallCheck): (o: JobOutcome)
    ensures o.result.Completed? <==> install.Installed? && NormalizeUrl(base).Some?
    ensures States(o.events) == [Started, if o.result.Completed? then Succeeded else Failed]
    ensures (RegistryClosed in o.events) <==> o.result.Completed?
    ensures o.result.Completed? ==>
      && Crawl(w, base).Finished? && Log(o.events) == Crawl(w, base).state.log
      && Ordered(o.events, Succeeded, RegistryClosed)
    ensures o.result.TaskError? ==>
      && Log(o.events) == [FatalRecord(base, o.result.error)]
      && Ordered(o.events, Failed, Pushed(FatalRecord(base, o.result.error)))
    ensures o.result.TaskError? && install.Installed? ==> o.result.error == InvalidIpv6
    ensures o.result.TaskError? && !install.Installed? ==> Some(o.result.error) == InstallError(install)
  {
    match InstallError(install)
    case Some(e) =>
      FailedFacts(base, e);
      JobOutcome(FailedEvents(base, e), TaskError(e))
    case None =>
      match Crawl(w, base)
      case CrawlRaised(e) =>
        FailedFacts(base, e);
        JobOutcome(FailedEvents(base, e), TaskError(e))
      case Finished(t) =>
        CompletedFacts(t);
        JobOutcome(CompletedEvents(t), Completed)
  }

  lemma FailedFacts(base: string, e: string)
    ensures var es := FailedEvents(base, e);
      && Log(es) == [FatalRecord(base, e)] && States(es) == [Started, Failed] && RegistryClosed !in es
      && Ordered(es, Failed, Pushed(FatalRecord(base, e)))
  {
    var es := FailedEvents(base, e);
    assert es == [Reported(Started)] + [Pushed(FatalRecord(base, e))] + [Reported(Failed)];
    LogOne(Reported(Started));
    LogOne(Pushed(FatalRecord(base, e)));
    LogOne(Reported(Failed));
    LogAppend([Reported(Started)], [Pushed(FatalRecord(base, e))]);
    LogAppend([Reported(Started)] + [Pushed(FatalRecord(base, e))], [Reported(Failed)]);
    StatesAppend([Reported(Started)], [Pushed(FatalRecord(base, e))]);
    StatesAppend([Reported(Started)] + [Pushed(FatalRecord(base, e))], [Reported(Failed)]);
  }

  lemma CompletedFacts(t: CrawlState)
    ensures var es := CompletedEvents(t);
      && Log(es) == t.log && States(es) == [Started, Succeeded] && RegistryClosed in es
      && Ordered(es, Succeeded, RegistryClosed)
  {
    CompletedLog(t);
    var es := CompletedEvents(t);
    var n := |t.log|;
    assert |es| == n + 3;
    forall i | 0 < i < |es| ensures es[i] != Reported(Started) {
      if i <= n {
        assert es[i] == Pushes(t.log)[i - 1];
      } else {
        assert es[i] == [RegistryClosed, Reported(Succeeded)][i - n - 1];
      }
    }
    assert es[n + 1] == RegistryClosed;
  }

  lemma CompletedLog(t: CrawlState)
    ensures Log(CompletedEvents(t)) == t.log && States(CompletedEvents(t)) == [Started, Succeeded]
  {
    var head: seq<JobEvent> := [Reported(Started)];
    var tail: seq<JobEvent> := [RegistryClosed, Reported(Succeeded)];
    LogOfPushes(t.log);
    LogOne(Reported(Started));
    LogOne(RegistryClosed);
    LogOne(Reported(Succeeded));
    assert tail == [RegistryClosed] + [Reported(Succeeded)];
    LogAppend([RegistryClosed], [Reported(Succeeded)]);
    StatesAppend([RegistryClosed], [Reported(Succeeded)]);
    LogAppend(head, Pushes(t.log));
    LogAppend(head + Pushes(t.log), tail);
    StatesAppend(head, Pushes(t.log));
    StatesAppend(head + Pushes(t.log), tail);
  }

  /** A completed job keeps the crawl's guarantees in its result list: one
      external record per distinct external target, and every page visited is
      the seed or on the base URL's host. */
  lemma CompletedJobStaysOnHost(w: Web, base: string, install: InstallCheck)
    requires RunJob(w, base, install).result.Completed?
    ensures var t := Crawl(w, base).state;
      && CountKind(Log(RunJob(w, base, install).events), External) == |t.checked|
      && (forall u :: u in t.visited ==> u in Seeds(base) || IsInternal(base, u))
  {
    CrawlStaysOnHost(w, base);
  }

  // ---------------------------------------------------------------------
  // The installation check as written, and as evidently intended
  // ---------------------------------------------------------------------

  /** The message of the `AttributeError` raised by looking up
      `SeleniumManager.check_firefox_installation`, which the class does not define. */
  const MissingCheckError: string := "type object 'SeleniumManager' has no attribute 'check_firefox_installation'"

  /** The installation check as written: the lookup of the method raises
      before anything is checked. */
  const FirefoxCheckAsWritten: InstallCheck := CheckRaised(MissingCheckError)

  /** As written, the job fails on every web and every base URL before a
      single page is fetched: its only record is the fatal error. */
  lemma JobAsWrittenAlwaysFails(w: Web, base: string)
    ensures RunJob(w, base, FirefoxCheckAsWritten)
         == JobOutcome([Reported(Started), Pushed(FatalRecord(base, MissingCheckError)), Reported(Failed)],
                       TaskError(MissingCheckError))
  {
  }

  /** The check the manager does define, `check_chrome_installation`, on the
      output of asking the browser binary for its version. */
  function ChromeCheck(versionOutput: Option<string>): InstallCheck
  {
    if ChromeInstalled(versionOutput) then Installed else NotInstalled
  }

  /** With the defined check, a job whose browser is installed completes
      exactly when its base URL normalises, and its result list is the
      crawl's; without the browser it fails with the installation message. */
  lemma CorrectedJobRunsTheCrawl(w: Web, base: string, versionOutput: Option<string>)
    ensures var o := RunJob(w, base, ChromeCheck(versionOutput));
      && (versionOutput.Some? ==> (o.result.Completed? <==> NormalizeUrl(base).Some?))
      && (versionOutput.Some? && NormalizeUrl(base).Some? ==>
            Log(o.events) == Crawl(w, base).state.log && RegistryClosed in o.events)
      && (versionOutput.None? ==> o.result == TaskError(NotInstalledMessage))
  {
  }

  /** The job on each of its three ways out. */
  lemma JobEndsOnInstallError(w: Web, base: string, install: InstallCheck)
    requires InstallError(install).Some?
    ensures var e := InstallError(install).value;
      RunJob(w, base, install) == JobOutcome(FailedEvents(base, e), TaskError(e))
  {
  }

  lemma JobEndsOnCrawlError(w: Web, base: string, install: InstallCheck, e: string)
    requires InstallError(install).None? && Crawl(w, base) == CrawlRaised(e)
    ensures RunJob(w, base, install) == JobOutcome(FailedEvents(base, e), TaskError(e))
  {
  }

  lemma JobEndsOnCompletion(w: Web, base: string, install: InstallCheck, t: CrawlState)
    requires InstallError(install).None? && Crawl(w, base) == Finished(t)
    ensures RunJob(w, base, install) == JobOutcome(CompletedEvents(t), Completed)
  {
  }

  /** `crawl_website`, with the installation check that exists. The browser
      registry of this process is closed only when the crawl completed. */
  method CrawlWebsite(w: Web, base: string, versionOutput: Option<string>, registry: Registry, pid: int)
    returns (o: JobOutcome)
    modifies registry
    ensures o == RunJob(w, base, ChromeCheck(versionOutput))
    ensures registry.State() == if RegistryClosed in o.events then AfterClose(old(registry.State()), pid)
                                else old(registry.State())
  {
    var install := ChromeCheck(versionOutput);
    var installError := InstallError(install);
    if installError.Some? {
      JobEndsOnInstallError(w, base, install);
      FailedFacts(base, installError.value);
      return JobOutcome(FailedEvents(base, installError.value), TaskError(installError.value));
    }
    var crawler := new Crawler(w, base);
    var raised := crawler.AsyncCrawlWebsite();
    if raised.Some? {
      JobEndsOnCrawlError(w, base, install, raised.value);
      FailedFacts(base, raised.value);
      return JobOutcome(FailedEvents(base, raised.value), TaskError(raised.value));
    }
    var t := crawler.State();
    JobEndsOnCompletion(w, base, install, t);
    registry.Close(pid);
    CompletedFacts(t);
    return JobOutcome(CompletedEvents(t), Completed);
  }
}
