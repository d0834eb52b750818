/** The per-process WebDriver registry: one instance per process id, holding
    at most one driver, recreated when it is missing or dead, with creation
    retried for 30 seconds; `close` quits the process's driver and forgets the
    instance. Drivers, the liveness probe, driver creation and the clock are
    parameters. */
module DriverRegistry {
  import opened Types

  /** A WebDriver, told apart by the attempt that created it. */
  datatype Driver = Driver(id: nat)

  /** One call of `_create_driver`: the driver, or the exception it raised
      together with the milliseconds the attempt used before raising. */
  datatype CreateOutcome = Created(driver: Driver) | CreateFailed(error: string, costMs: nat)

  /** `_initialization_timeout`, in milliseconds, and the pause after a failure. */
  const InitializationTimeoutMs: nat := 30000
  const RetryPauseMs: nat := 1000

  const TimeoutMessage: string := "Failed to initialize WebDriver within 30 seconds"

  /** How the retry loop ended: a driver after `failures` failed attempts, or
      the time ran out after `failures` failed attempts. */
  datatype Creation = Success(driver: Driver, failures: nat) | TimedOut(failures: nat)

  /** The loop of `_create_new_driver` from attempt `n`, `elapsedMs` after it
      started: an attempt is made while less than the timeout has elapsed. */
  function Retry(attempt: nat -> CreateOutcome, n: nat, elapsedMs: nat): (c: Creation)
    ensures c.failures >= n
    ensures forall i: nat :: n <= i < c.failures ==> attempt(i).CreateFailed?
    ensures c.Success? ==> attempt(c.failures) == Created(c.driver)
    ensures n <= 30 && n * RetryPauseMs <= elapsedMs ==> c.failures <= 30
    decreases InitializationTimeoutMs - elapsedMs
  {
    if elapsedMs >= InitializationTimeoutMs then TimedOut(n)
    else
      match attempt(n)
      case Created(d) => Success(d, n)
      case CreateFailed(_, cost) => Retry(attempt, n + 1, elapsedMs + cost + RetryPauseMs)
  }

  /** When every attempt fails at once, the loop makes exactly 30 attempts,
      one a second, and then times out. */
  lemma {:induction false} InstantFailuresTimeOutAfterThirty(attempt: nat -> CreateOutcome, n: nat)
    requires n <= 30
    requires forall i: nat :: attempt(i).CreateFailed? && attempt(i).costMs == 0
    ensures Retry(attempt, n, n * RetryPauseMs) == TimedOut(30)
    decreases 30 - n
  {
    if n < 30 {
      InstantFailuresTimeOutAfterThirty(attempt, n + 1);
    }
  }

  /** The first attempt that succeeds in time is the one whose driver is kept. */
  lemma FirstSuccessWins(attempt: nat -> CreateOutcome, k: nat)
    requires k < 30
    requires forall i: nat :: i < k ==> attempt(i).CreateFailed? && attempt(i).costMs == 0
    requires attempt(k).Created?
    ensures Retry(attempt, 0, 0) == Success(attempt(k).driver, k)
  {
    RetryFromPrefix(attempt, 0, k);
  }

  lemma {:induction false} RetryFromPrefix(attempt: nat -> CreateOutcome, n: nat, k: nat)
    requires n <= k < 30
    requires forall i: nat :: n <= i < k ==> attempt(i).CreateFailed? && attempt(i).costMs == 0
    requires attempt(k).Created?
    ensures Retry(attempt, n, n * RetryPauseMs) == Success(attempt(k).driver, k)
    decreases k - n
  {
    if n < k {
      RetryFromPrefix(attempt, n + 1, k);
    }
  }

  // ---------------------------------------------------------------------
  // The registry's state and what each operation makes of it
  // ---------------------------------------------------------------------

  /** `_instances` (each process's instance, by its `_driver`) and the drivers
      on which `quit()` was called, in order. */
  datatype RegistryState = RegistryState(instances: map<int, Option<Driver>>, quits: seq<Driver>)

  /** `SeleniumManager()` in process `pid`: the existing instance, or a new one
      without a driver. */
  function AfterNew(s: RegistryState, pid: int): (t: RegistryState)
    ensures pid in t.instances && t.quits == s.quits
    ensures pid in s.instances ==> t == s
    ensures pid !in s.instances ==> t.instances[pid] == None
    ensures forall q :: q != pid ==> (q in t.instances <==> q in s.instances)
    ensures forall q :: q != pid && q in s.instances ==> t.instances[q] == s.instances[q]
  {
    if pid in s.instances then s else s.(instances := s.instances[pid := None])
  }

  /** `_is_driver_alive`: false without a driver, otherwise whether asking for
      the current window handle succeeds. */
  function IsDriverAlive(driver: Option<Driver>, answers: Driver -> bool): (alive: bool)
    ensures alive ==> driver.Some? && answers(driver.value)
    ensures driver.Some? && answers(driver.value) ==> alive
  {
    match driver
    case None => false
    case Some(d) => answers(d)
  }

  /** `_create_new_driver`: the old driver, if any, is quit and dropped; then
      the retry loop runs. Returns the timeout message when it ran out. */
  function AfterCreate(s: RegistryState, pid: int, attempt: nat -> CreateOutcome): (r: (RegistryState, Option<string>))
    requires pid in s.instances
    ensures pid in r.0.instances
    ensures r.0.quits == s.quits + (if s.instances[pid].Some? then [s.instances[pid].value] else [])
    ensures r.1.None? <==> Retry(attempt, 0, 0).Success?
    ensures r.1.None? ==> r.0.instances[pid] == Some(Retry(attempt, 0, 0).driver)
    ensures r.1.Some? ==> r.1.value == TimeoutMessage && r.0.instances[pid] == None
    ensures forall q :: q != pid ==> (q in r.0.instances <==> q in s.instances)
    ensures forall q :: q != pid && q in s.instances ==> r.0.instances[q] == s.instances[q]
  {
    var retired := match s.instances[pid]
      case None => s
      case Some(d) => RegistryState(s.instances[pid := None], s.quits + [d]);
    match Retry(attempt, 0, 0)
    case Success(d, _) => (retired.(instances := retired.instances[pid := Some(d)]), None)
    case TimedOut(_) => (retired, Some(TimeoutMessage))
  }

  /** What `get_instance` hands back: a driver, or the message of the timeout
      it raised. */
  datatype Acquired = Acquired(driver: Driver) | AcquireFailed(error: string)

  /** `get_instance`: the process's instance, its driver kept when alive and
      recreated otherwise. */
  function AfterGetInstance(s: RegistryState, pid: int, answers: Driver -> bool, attempt: nat -> CreateOutcome)
    : (r: (RegistryState, Acquired))
    ensures pid in r.0.instances
    ensures r.1.Acquired? ==> r.0.instances[pid] == Some(r.1.driver)
  {
    var s1 := AfterNew(s, pid);
    if IsDriverAlive(s1.instances[pid], answers) then (s1, Acquired(s1.instances[pid].value))
    else
      var (s2, raised) := AfterCreate(s1, pid, attempt);
      if raised.Some? then (s2, AcquireFailed(raised.value)) else (s2, Acquired(s2.instances[pid].value))
  }

  /** `close`: for a process whose instance holds a driver, the driver is quit
      and the instance forgotten; an instance without a driver stays. */
  function AfterClose(s: RegistryState, pid: int): (t: RegistryState)
    ensures pid in s.instances && s.instances[pid].Some?
            ==> t == RegistryState(s.instances - {pid}, s.quits + [s.instances[pid].value])
    ensures !(pid in s.instances && s.instances[pid].Some?) ==> t == s
  {
    if pid in s.instances && s.instances[pid].Some? then
      RegistryState(s.instances - {pid}, s.quits + [s.instances[pid].value])
    else s
  }

  // ---------------------------------------------------------------------
  // Properties
  // ---------------------------------------------------------------------

  /** One instance per process: asking again gives the same instance, driver
      included. */
  lemma NewIsIdempotent(s: RegistryState, pid: int)
    ensures AfterNew(AfterNew(s, pid), pid) == AfterNew(s, pid)
    ensures pid in s.instances ==> AfterNew(s, pid).instances[pid] == s.instances[pid]
  {
  }

  /** A live driver is handed back as it is: nothing is quit or created, and
      the creation attempts are not consulted. */
  lemma LiveDriverIsReused(s: RegistryState, pid: int, answers: Driver -> bool,
                           attempt1: nat -> CreateOutcome, attempt2: nat -> CreateOutcome)
    requires pid in s.instances && s.instances[pid].Some? && answers(s.instances[pid].value)
    ensures AfterGetInstance(s, pid, answers, attempt1) == (s, Acquired(s.instances[pid].value))
    ensures AfterGetInstance(s, pid, answers, attempt1) == AfterGetInstance(s, pid, answers, attempt2)
  {
  }

  /** A dead driver is quit before its replacement is created, and the process
      never holds two drivers: the one it holds afterwards is the new one or none. */
  lemma DeadDriverIsQuit(s: RegistryState, pid: int, answers: Driver -> bool, attempt: nat -> CreateOutcome)
    requires pid in s.instances && s.instances[pid].Some? && !answers(s.instances[pid].value)
    ensures var (t, r) := AfterGetInstance(s, pid, answers, attempt);
      && t.quits == s.quits + [s.instances[pid].value]
      && (r.Acquired? <==> Retry(attempt, 0, 0).Success?)
      && (r.Acquired? ==> r.driver == Retry(attempt, 0, 0).driver && t.instances[pid] == Some(r.driver))
      && (r.AcquireFailed? ==> r.error == TimeoutMessage && t.instances[pid] == None)
  {
  }

  /** A process without a driver, whether it has no instance yet or one
      whose driver is None, gets a new one: nothing is quit, and the driver
      stored is the one handed back, or none when creation timed out. */
  lemma MissingDriverIsCreated(s: RegistryState, pid: int, answers: Driver -> bool, attempt: nat -> CreateOutcome)
    requires pid !in s.instances || s.instances[pid].None?
    ensures var (t, r) := AfterGetInstance(s, pid, answers, attempt);
      && t.quits == s.quits
      && (r.Acquired? <==> Retry(attempt, 0, 0).Success?)
      && (r.Acquired? ==> r.driver == Retry(attempt, 0, 0).driver && t.instances[pid] == Some(r.driver))
      && (r.AcquireFailed? ==> r.error == TimeoutMessage && t.instances[pid] == None)
  {
  }

  /** `get_instance` in one process leaves every other process's instance as it was. */
  lemma OtherProcessesUntouched(s: RegistryState, pid: int, q: int, answers: Driver -> bool,
                                attempt: nat -> CreateOutcome)
    requires q != pid
    ensures var t := AfterGetInstance(s, pid, answers, attempt).0;
      (q in t.instances <==> q in s.instances) && (q in s.instances ==> t.instances[q] == s.instances[q])
    ensures var t := AfterClose(s, pid);
      (q in t.instances <==> q in s.instances) && (q in s.instances ==> t.instances[q] == s.instances[q])
  {
  }

  /** Closing twice is closing once: the driver is quit a single time. */
  lemma CloseIsIdempotent(s: RegistryState, pid: int)
    ensures AfterClose(AfterClose(s, pid), pid) == AfterClose(s, pid)
  {
  }

  /** After `get_instance` succeeded, `close` quits exactly the driver it
      handed out and forgets the instance. */
  lemma CloseQuitsAcquiredDriver(s: RegistryState, pid: int, answers: Driver -> bool, attempt: nat -> CreateOutcome)
    requires AfterGetInstance(s, pid, answers, attempt).1.Acquired?
    ensures var (t, r) := AfterGetInstance(s, pid, answers, attempt);
      AfterClose(t, pid) == RegistryState(t.instances - {pid}, t.quits + [r.driver])
  {
  }

  // ---------------------------------------------------------------------
  // The registry, updated in place
  // ---------------------------------------------------------------------

  /** `SeleniumManager` with its class-level `_instances` map. The lock that
      guards `__new__` and `close` is not modelled: operations run one at a time. */
  class Registry {
    var instances: map<int, Option<Driver>>
    var quits: seq<Driver>

    function State(): RegistryState
      reads this
    {
      RegistryState(instances, quits)
    }

    constructor ()
      ensures State() == RegistryState(map[], [])
    {
      instances, quits := map[], [];
    }

    /** `__new__`. */
    method New(pid: int)
      modifies this
      ensures State() == AfterNew(old(State()), pid)
    {
      if pid !in instances {
        instances := instances[pid := None];
      }
    }

    /** `_create_new_driver`. */
    method CreateNewDriver(pid: int, attempt: nat -> CreateOutcome) returns (raised: Option<string>)
      requires pid in instances
      modifies this
      ensures (State(), raised) == AfterCreate(old(State()), pid, attempt)
    {
      if instances[pid].Some? {
        quits := quits + [instances[pid].value];
        instances := instances[pid := None];
      }
      ghost var retired := State();
      var n: nat := 0;
      var elapsedMs: nat := 0;
      while elapsedMs < InitializationTimeoutMs
        invariant pid in instances && instances[pid] == None && State() == retired
        invariant Retry(attempt, n, elapsedMs) == Retry(attempt, 0, 0)
        decreases InitializationTimeoutMs - elapsedMs
      {
        match attempt(n)
        case Created(d) =>
          instances := instances[pid := Some(d)];
          return None;
        case CreateFailed(_, cost) =>
          // the driver is still None here, so the `quit()` in this branch never runs
          elapsedMs := elapsedMs + cost + RetryPauseMs;
          n := n + 1;
      }
      return Some(TimeoutMessage);
    }

    /** `get_instance`. */
    method GetInstance(pid: int, answers: Driver -> bool, attempt: nat -> CreateOutcome) returns (r: Acquired)
      modifies this
      ensures (State(), r) == AfterGetInstance(old(State()), pid, answers, attempt)
    {
      New(pid);
      if !IsDriverAlive(instances[pid], answers) {
        var raised := CreateNewDriver(pid, attempt);
        if raised.Some? {
          return AcquireFailed(raised.value);
        }
      }
      return Acquired(instances[pid].value);
    }

    /** `close`. */
    method Close(pid: int)
      modifies this
      ensures State() == AfterClose(old(State()), pid)
    {
      if pid in instances && instances[pid].Some? {
        quits := quits + [instances[pid].value];
        instances := instances - {pid};
      }
    }
  }

  /** `check_chrome_installation`: true exactly when asking the browser binary
      for its version ran without raising (`versionOutput` holds what it
      answered, or nothing when it raised). */
  function ChromeInstalled(versionOutput: Option<string>): bool
  {
    versionOutput.Some?
  }
}
