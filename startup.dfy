/** Application start-up: `NewsPortalConfig.ready` decides from the
    environment whether to launch the start-up thread, and
    `delayed_scheduler_start` waits for the database with a bounded number of
    connection attempts before it tries to start the scheduler. Connection
    outcomes are an oracle indexed by attempt number; sleeps are recorded as
    their durations in seconds instead of being performed. */
module PortalStartup {
  import opened Common

  const MaxRetries: nat := 10
  const RetryDelay: nat := 5
  const SettleDelay: nat := 10

  /** `os.environ.get(name)`. */
  function EnvGet(env: map<string, string>, name: string): (r: Option<string>)
    ensures r.Some? <==> name in env
    ensures r.Some? ==> r.value == env[name]
  {
    if name in env then Some(env[name]) else None
  }

  /** `ready`: whether the start-up thread is launched. It is launched unless
      one of the two reloader variables holds a non-empty value. */
  function Ready(env: map<string, string>): (launch: bool)
    ensures launch <==> (forall name :: name in {"WERKZEUG_RUN_MAIN", "RUN_MAIN"} && name in env ==> env[name] == "")
  {
    !Truthy(EnvGet(env, "WERKZEUG_RUN_MAIN")) && !Truthy(EnvGet(env, "RUN_MAIN"))
  }

  /** The reloader's child process (`RUN_MAIN=true`) does not launch a second
      thread, while a process with neither variable does. */
  lemma ReadyInReloaderChild(env: map<string, string>)
    ensures !Ready(env["RUN_MAIN" := "true"])
    ensures !Ready(env["WERKZEUG_RUN_MAIN" := "true"])
    ensures "RUN_MAIN" !in env && "WERKZEUG_RUN_MAIN" !in env ==> Ready(env)
  {
    assert "RUN_MAIN" != "WERKZEUG_RUN_MAIN";
  }

  /** What `tasks.start_scheduler` does when it is looked up and called:
      absent (the import fails), raises, or starts the scheduler. */
  datatype SchedulerHook = Missing | Raises | Starts

  /** The outcome of one `connection.ensure_connection()`: success, the
      `OperationalError` the loop retries, or any other exception, which
      escapes the loop and ends the thread. */
  datatype Connect = Connected | OperationalError | OtherError

  datatype StartupResult = GaveUp | Crashed | SchedulerStarted | SchedulerStartFailed

  /** The first attempt number below `bound`, from `from` on, that does not
      raise `OperationalError`. */
  function FirstSettled(connect: nat -> Connect, from: nat, bound: nat): (r: Option<nat>)
    ensures r.None? <==> forall i :: from <= i < bound ==> connect(i) == OperationalError
    ensures r.Some? ==> from <= r.value < bound && connect(r.value) != OperationalError
                        && forall i :: from <= i < r.value ==> connect(i) == OperationalError
    decreases bound - from
  {
    if from >= bound then None
    else if connect(from) != OperationalError then Some(from)
    else FirstSettled(connect, from + 1, bound)
  }

  /** The first attempt that does not raise `OperationalError` is the one
      after a run of such errors. */
  lemma {:induction false} FirstSettledAt(connect: nat -> Connect, from: nat, bound: nat, i: nat)
    requires from <= i < bound && connect(i) != OperationalError
    requires forall j :: from <= j < i ==> connect(j) == OperationalError
    ensures FirstSettled(connect, from, bound) == Some(i)
    decreases i - from
  {
    if from < i {
      FirstSettledAt(connect, from + 1, bound, i);
    }
  }

  function Repeat(d: nat, n: nat): (r: seq<nat>)
    ensures |r| == n && forall k :: 0 <= k < n ==> r[k] == d
  {
    seq(n, _ => d)
  }

  /** `delayed_scheduler_start`. `attempts` counts the connection attempts
      made, `sleeps` lists the delays slept, in order. */
  method DelayedSchedulerStart(connect: nat -> Connect, hook: SchedulerHook)
    returns (attempts: nat, sleeps: seq<nat>, result: StartupResult)
    ensures 1 <= attempts <= MaxRetries
    ensures forall i :: 0 <= i < attempts - 1 ==> connect(i) == OperationalError
    ensures result == GaveUp <==> FirstSettled(connect, 0, MaxRetries).None?
    ensures result == GaveUp ==> attempts == MaxRetries && sleeps == Repeat(RetryDelay, MaxRetries - 1)
    ensures result == Crashed <==> FirstSettled(connect, 0, MaxRetries).Some?
                                   && connect(FirstSettled(connect, 0, MaxRetries).value) == OtherError
    ensures result == Crashed ==> connect(attempts - 1) == OtherError && sleeps == Repeat(RetryDelay, attempts - 1)
    ensures result == SchedulerStarted || result == SchedulerStartFailed ==>
              && connect(attempts - 1) == Connected
              && sleeps == Repeat(RetryDelay, attempts - 1) + [SettleDelay]
              && (result == SchedulerStarted <==> hook == Starts)
  {
    var i := 0;
    sleeps := [];
    while connect(i) != Connected
      invariant 0 <= i < MaxRetries
      invariant forall j :: 0 <= j < i ==> connect(j) == OperationalError
      invariant sleeps == Repeat(RetryDelay, i)
      decreases MaxRetries - i
    {
      if connect(i) == OtherError {
        FirstSettledAt(connect, 0, MaxRetries, i);
        attempts, result := i + 1, Crashed;
        return;
      }
      if i == MaxRetries - 1 {
        attempts, result := i + 1, GaveUp;
        return;
      }
      sleeps := sleeps + [RetryDelay];
      i := i + 1;
    }
    FirstSettledAt(connect, 0, MaxRetries, i);
    attempts := i + 1;
    sleeps := sleeps + [SettleDelay];
    if hook == Starts {
      result := SchedulerStarted;
    } else {
      result := SchedulerStartFailed;
    }
  }
}
