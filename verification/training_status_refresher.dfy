/**
  The polling loop that waits for resubmitted training jobs.

  The job-management client's `jobs.get` is the oracle `fetch(name, n)`: the record the
  platform returns on the `n`-th status request of the run (counted from 0), for the job
  identifier asked for. The wall clock is the oracle `clock(i)` in microseconds: reading 0 is
  taken on entry to compute the deadline, reading `i + 1` by the timeout check of iteration `i`.
  `time.sleep` has no observable effect beyond being counted.
 */
module TrainingStatusRefresher {
  import opened Results
  import opened Jobs
  import opened JobConfig
  import opened Sequences
  import opened Text

  const MicrosPerSecond: int := 1_000_000

  /** The two delays, in seconds, read once at construction. */
  datatype Refresher = Refresher(timeoutDelay: int, refreshDelay: int)

  /** The exceptions that end the polling loop. */
  datatype PollError =
    | TimeoutReached   // raised by the timeout check
    | NegativeSleep    // ValueError from `time.sleep` with a negative delay

  /** `__init__`: `int(parameters["refreshTimeout"])`, then `int(parameters["refreshDelay"])`. */
  function NewRefresher(parameters: ConfigValue): Result<Refresher, ConfigError> {
    var timeoutText :- GetText(parameters, "refreshTimeout");
    var timeout :- ParseInt(timeoutText);
    var delayText :- GetText(parameters, "refreshDelay");
    var delay :- ParseInt(delayText);
    Success(Refresher(timeout, delay))
  }

  /** Both delays are taken verbatim from their decimal text. */
  lemma NewRefresherReadsDelays(parameters: ConfigValue, timeout: int, delay: int)
    requires parameters.Section?
    requires "refreshTimeout" in parameters.entries && "refreshDelay" in parameters.entries
    requires parameters.entries["refreshTimeout"] == Str(ShowInt(timeout))
    requires parameters.entries["refreshDelay"] == Str(ShowInt(delay))
    ensures NewRefresher(parameters) == Success(Refresher(timeout, delay))
  {
    ParseShowRoundTrip(timeout);
    ParseShowRoundTrip(delay);
  }

  /** With the configuration "3600" and "30" the refresher waits an hour, polling every 30 seconds. */
  lemma NewRefresherExample(parameters: ConfigValue)
    requires parameters.Section?
    requires "refreshTimeout" in parameters.entries && "refreshDelay" in parameters.entries
    requires parameters.entries["refreshTimeout"] == Str("3600")
    requires parameters.entries["refreshDelay"] == Str("30")
    ensures NewRefresher(parameters) == Success(Refresher(3600, 30))
  {
    assert "3600"[..3] == "360" && "360"[..2] == "36" && "36"[..1] == "3" && "3"[..0] == "";
    assert ValueOf("3") == 3;
    assert ValueOf("36") == 36;
    assert ValueOf("360") == 360;
    assert ValueOf("3600") == 3600;
    assert ValueOf("30") == 30;
    assert ParseInt("3600") == Success(3600);
    assert ParseInt("30") == Success(30);
  }

  /** The deadline `datetime.now() + timedelta(seconds=timeoutDelay)`, in microseconds. */
  function Deadline(start: int, timeoutDelay: int): int {
    start + timeoutDelay * MicrosPerSecond
  }

  /** `check_timeout_reached`: raises only when `now` is strictly after the deadline. */
  function CheckTimeoutReached(now: int, deadline: int): (r: Outcome<PollError>)
    ensures r.Fail? <==> now > deadline
    ensures r.Fail? ==> r.error == TimeoutReached
  {
    if now > deadline then Fail(TimeoutReached) else Pass
  }

  /** The records `jobs.get` returns for `jobs`, one request each, in order, from request `calls` on. */
  function Fetched(jobs: seq<Job>, fetch: (Option<string>, nat) -> Job, calls: nat): (r: seq<Job>)
    ensures |r| == |jobs|
    ensures forall i | 0 <= i < |jobs| :: r[i] == fetch(jobs[i].name, calls + i)
    decreases |jobs|
  {
    if |jobs| == 0 then []
    else
      var rest := Fetched(jobs[1..], fetch, calls + 1);
      assert forall i | 1 <= i < |jobs| :: rest[i - 1] == fetch(jobs[i].name, calls + i);
      [fetch(jobs[0].name, calls)] + rest
  }

  predicate NotCompleted(job: Job) {
    job.status != Completed
  }

  /** `refresh_job_status`: fetch every job once, in order, and keep those whose status is not exactly "Completed". */
  function RefreshJobStatus(jobs: seq<Job>, fetch: (Option<string>, nat) -> Job, calls: nat): (r: seq<Job>)
    ensures |r| <= |jobs|
    decreases |jobs|
  {
    if |jobs| == 0 then []
    else
      var job := fetch(jobs[0].name, calls);
      (if NotCompleted(job) then [job] else []) + RefreshJobStatus(jobs[1..], fetch, calls + 1)
  }

  /**
    The refresh is the list comprehension over the fetched records: it keeps exactly the records
    whose status is not "Completed", in the order they were fetched.
   */
  lemma {:induction false} RefreshJobStatusIsFilter(jobs: seq<Job>, fetch: (Option<string>, nat) -> Job, calls: nat)
    ensures RefreshJobStatus(jobs, fetch, calls) == Keep(Fetched(jobs, fetch, calls), NotCompleted)
    decreases |jobs|
  {
    if |jobs| > 0 {
      var fetched := Fetched(jobs, fetch, calls);
      var job := fetch(jobs[0].name, calls);
      RefreshJobStatusIsFilter(jobs[1..], fetch, calls + 1);
      assert fetched[1..] == Fetched(jobs[1..], fetch, calls + 1);
      assert Keep(fetched, NotCompleted)
          == (if NotCompleted(job) then [job] else []) + Keep(fetched[1..], NotCompleted);
    }
  }

  /** What the refresh keeps, stated on the fetched records. */
  lemma RefreshJobStatusKeeps(jobs: seq<Job>, fetch: (Option<string>, nat) -> Job, calls: nat)
    ensures var r := RefreshJobStatus(jobs, fetch, calls);
            && (forall j | j in r :: j.status != Completed)
            && (forall i | 0 <= i < |jobs| && fetch(jobs[i].name, calls + i).status != Completed
                  :: fetch(jobs[i].name, calls + i) in r)
            && IsSubsequence(r, Fetched(jobs, fetch, calls))
  {
    var fetched := Fetched(jobs, fetch, calls);
    RefreshJobStatusIsFilter(jobs, fetch, calls);
    assert forall i | 0 <= i < |jobs| :: fetched[i] == fetch(jobs[i].name, calls + i);
  }

  /** The jobs still tracked after some iterations, and how many status requests were made. */
  datatype PollState = PollState(tracked: seq<Job>, calls: nat)

  /** The loop's state after `iterations` refreshes of `jobs`. */
  function Polled(jobs: seq<Job>, fetch: (Option<string>, nat) -> Job, iterations: nat): PollState
  {
    if iterations == 0 then PollState(jobs, 0)
    else
      var p := Polled(jobs, fetch, iterations - 1);
      PollState(RefreshJobStatus(p.tracked, fetch, p.calls), p.calls + |p.tracked|)
  }

  /** The loop condition: some tracked job has a status other than "Failed". */
  predicate HasToWait(tracked: seq<Job>)
    decreases |tracked|
  {
    |tracked| > 0 && (tracked[0].status != Failed || HasToWait(tracked[1..]))
  }

  /** The recursive reading of the loop condition is Python's `any(...)`. */
  lemma {:induction false} HasToWaitIsAny(tracked: seq<Job>)
    ensures HasToWait(tracked) <==> exists i | 0 <= i < |tracked| :: tracked[i].status != Failed
    decreases |tracked|
  {
    if |tracked| > 0 {
      HasToWaitIsAny(tracked[1..]);
      if !HasToWait(tracked) {
        forall i | 0 <= i < |tracked|
          ensures tracked[i].status == Failed
        {
          if i > 0 {
            assert tracked[1..][i - 1] == tracked[i];
          }
        }
      }
    }
  }

  /** Each iteration polls only what the previous one kept, so the tracked list never grows. */
  lemma {:induction false} PolledNeverGrows(jobs: seq<Job>, fetch: (Option<string>, nat) -> Job, iterations: nat)
    ensures |Polled(jobs, fetch, iterations + 1).tracked| <= |Polled(jobs, fetch, iterations).tracked|
    ensures |Polled(jobs, fetch, iterations).tracked| <= |jobs|
  {
    if iterations > 0 {
      PolledNeverGrows(jobs, fetch, iterations - 1);
    }
  }

  /** A clock that moves forward between any two readings. */
  ghost predicate Advances(clock: nat -> int) {
    forall a: nat, b: nat :: a < b ==> clock(a) < clock(b)
  }

  /** After `iterations` refreshes of `jobs`, the loop has to go on. */
  predicate WaitsAfter(jobs: seq<Job>, fetch: (Option<string>, nat) -> Job, iterations: nat) {
    HasToWait(Polled(jobs, fetch, iterations).tracked)
  }

  /** Readings `1` to `n` of the clock are all at or before the deadline. */
  ghost predicate OnTime(clock: nat -> int, deadline: int, n: nat)
    decreases n
  {
    n == 0 || (OnTime(clock, deadline, n - 1) && clock(n) <= deadline)
  }

  lemma {:induction false} OnTimeAll(clock: nat -> int, deadline: int, n: nat)
    requires OnTime(clock, deadline, n)
    ensures forall i | 1 <= i <= n :: clock(i) <= deadline
    decreases n
  {
    if n > 0 {
      OnTimeAll(clock, deadline, n - 1);
    }
  }

  /** After each of the iterations `1` to `n - 1` some tracked job still had to be waited for. */
  ghost predicate KeptWaiting(jobs: seq<Job>, fetch: (Option<string>, nat) -> Job, n: nat)
    decreases n
  {
    n <= 1 || (KeptWaiting(jobs, fetch, n - 1) && WaitsAfter(jobs, fetch, n - 1))
  }

  lemma {:induction false} KeptWaitingAll(jobs: seq<Job>, fetch: (Option<string>, nat) -> Job, n: nat)
    requires KeptWaiting(jobs, fetch, n)
    ensures forall i | 1 <= i < n :: WaitsAfter(jobs, fetch, i)
    decreases n
  {
    if n > 1 {
      KeptWaitingAll(jobs, fetch, n - 1);
    }
  }

  /**
    `wait_training`. Each iteration refreshes the tracked jobs, decides whether to go on,
    checks the timeout and sleeps, in that order; the loop ends after an iteration in which
    no tracked job has a status other than "Failed". `sleeps` counts the calls to
    `time.sleep` that returned and `fetches` the status requests made.
   */
  method WaitTraining(rf: Refresher, newJobs: seq<Job>, fetch: (Option<string>, nat) -> Job, clock: nat -> int)
    returns (outcome: Result<seq<Job>, PollError>, sleeps: nat, fetches: nat)
    requires Advances(clock)
    // every iteration that completed passed its timeout check and, but for the last, had to wait
    ensures forall i | 1 <= i <= sleeps :: clock(i) <= Deadline(clock(0), rf.timeoutDelay)
    ensures forall i | 1 <= i < sleeps :: WaitsAfter(newJobs, fetch, i)
    // normal return: after the first iteration in which nothing but failures is tracked
    ensures outcome.Success? ==>
              && sleeps >= 1
              && PollState(outcome.value, fetches) == Polled(newJobs, fetch, sleeps)
              && !HasToWait(outcome.value)
              && rf.refreshDelay >= 0
    // timeout: raised in the iteration after the last completed one, even if that one finished
    ensures outcome == Failure(TimeoutReached) ==>
              && clock(sleeps + 1) > Deadline(clock(0), rf.timeoutDelay)
              && (sleeps >= 1 ==> WaitsAfter(newJobs, fetch, sleeps))
              && fetches == Polled(newJobs, fetch, sleeps + 1).calls
    // a negative refresh delay makes the first sleep raise, once the first timeout check passed
    ensures outcome == Failure(NegativeSleep) <==>
              rf.refreshDelay < 0 && clock(1) <= Deadline(clock(0), rf.timeoutDelay)
    ensures outcome == Failure(NegativeSleep) ==> sleeps == 0
  {
    var deadline := Deadline(clock(0), rf.timeoutDelay);
    var tracked := newJobs;
    fetches := 0;
    sleeps := 0;
    var hasToWait := true;
    while hasToWait
      invariant PollState(tracked, fetches) == Polled(newJobs, fetch, sleeps)
      invariant OnTime(clock, deadline, sleeps)
      invariant KeptWaiting(newJobs, fetch, sleeps)
      invariant hasToWait <==> sleeps == 0 || HasToWait(tracked)
      invariant sleeps > 0 ==> rf.refreshDelay >= 0
      decreases if clock(sleeps) <= deadline then deadline - clock(sleeps) + 1 else 0
    {
      tracked, fetches := RefreshJobStatus(tracked, fetch, fetches), fetches + |tracked|;
      hasToWait := HasToWait(tracked);
      var timeout := CheckTimeoutReached(clock(sleeps + 1), deadline);
      if timeout.Fail? {
        outcome := Failure(timeout.error);
        OnTimeAll(clock, deadline, sleeps);
        KeptWaitingAll(newJobs, fetch, sleeps);
        return;
      }
      if rf.refreshDelay < 0 {
        outcome := Failure(NegativeSleep);
        OnTimeAll(clock, deadline, sleeps);
        KeptWaitingAll(newJobs, fetch, sleeps);
        return;
      }
      sleeps := sleeps + 1;
    }
    outcome := Success(tracked);
    OnTimeAll(clock, deadline, sleeps);
    KeptWaitingAll(newJobs, fetch, sleeps);
  }
}
