/**
  The polling scenarios the refresher is known to handle, each derived from the contract of
  `WaitTraining` alone, with a clock that reads 30 seconds later at every check.
 */
module TrainingStatusScenarios {
  import opened Results
  import opened Jobs
  import opened TrainingStatusRefresher

  function JobWithStatus(name: string, status: string): Job {
    Job(Some(name), name, status, map[], "")
  }

  function EveryThirtySeconds(i: nat): int {
    i * 30_000_000
  }

  lemma EveryThirtySecondsAdvances()
    ensures Advances(EveryThirtySeconds)
  {
  }

  /** Two jobs, the first "Completed" and the second "Running": only the second is kept. */
  lemma RefreshDropsCompleted()
    ensures RefreshJobStatus(
              [JobWithStatus("job1", Running), JobWithStatus("job2", Running)],
              (name: Option<string>, n: nat) =>
                if n == 0 then JobWithStatus("job1", Completed) else JobWithStatus("job2", Running),
              0)
            == [JobWithStatus("job2", Running)]
  {
  }

  /** A job that is "Running" at the first check and "Completed" at the second: two requests,
      two sleeps, and nothing left over. */
  method RunningThenCompleted() returns (outcome: Result<seq<Job>, PollError>, sleeps: nat, fetches: nat)
    ensures outcome == Success([]) && sleeps == 2 && fetches == 2
  {
    var job := JobWithStatus("job1", Running);
    var fetch := (name: Option<string>, n: nat) =>
      if n == 0 then JobWithStatus("job1", Running) else JobWithStatus("job1", Completed);
    EveryThirtySecondsAdvances();
    outcome, sleeps, fetches := WaitTraining(Refresher(3600, 30), [job], fetch, EveryThirtySeconds);
    assert Polled([job], fetch, 0) == PollState([job], 0);
    var p1 := Polled([job], fetch, 1);
    var p2 := Polled([job], fetch, 2);
    assert RefreshJobStatus([job], fetch, 0) == [job];
    assert p1.tracked == [job] && p1.calls == 1;
    assert [job][1..] == [];
    assert fetch(job.name, 1) == JobWithStatus("job1", Completed);
    assert RefreshJobStatus([job], fetch, 1) == [];
    assert p2.tracked == [] && p2.calls == 2;
    assert HasToWait(p1.tracked);
    assert !WaitsAfter([job], fetch, 2);
    match outcome
    case Success(_) =>
    case Failure(TimeoutReached) => assert false;
    case Failure(NegativeSleep) => assert false;
  }

  /** A job that has failed at the first check: one request, one sleep, and the failed job returned. */
  method FailsAtOnce() returns (outcome: Result<seq<Job>, PollError>, sleeps: nat, fetches: nat)
    ensures outcome == Success([JobWithStatus("job1", Failed)]) && sleeps == 1 && fetches == 1
  {
    var job := JobWithStatus("job1", Running);
    var fetch := (name: Option<string>, n: nat) => JobWithStatus("job1", Failed);
    EveryThirtySecondsAdvances();
    outcome, sleeps, fetches := WaitTraining(Refresher(3600, 30), [job], fetch, EveryThirtySeconds);
    assert Polled([job], fetch, 0) == PollState([job], 0);
    var p1 := Polled([job], fetch, 1);
    assert RefreshJobStatus([job], fetch, 0) == [JobWithStatus("job1", Failed)];
    assert p1.tracked == [JobWithStatus("job1", Failed)] && p1.calls == 1;
    assert !HasToWait(p1.tracked);
    assert !WaitsAfter([job], fetch, 1);
    match outcome
    case Success(_) =>
    case Failure(TimeoutReached) => assert false;
    case Failure(NegativeSleep) => assert false;
  }

  /** Nothing to wait for: one iteration, one sleep, no request. */
  method NothingToWaitFor() returns (outcome: Result<seq<Job>, PollError>, sleeps: nat, fetches: nat)
    ensures outcome == Success([]) && sleeps == 1 && fetches == 0
  {
    var fetch := (name: Option<string>, n: nat) => JobWithStatus("job1", Running);
    EveryThirtySecondsAdvances();
    outcome, sleeps, fetches := WaitTraining(Refresher(3600, 30), [], fetch, EveryThirtySeconds);
    assert Polled([], fetch, 0) == PollState([], 0);
    var p1 := Polled([], fetch, 1);
    assert p1.tracked == [] && p1.calls == 0;
    assert !WaitsAfter([], fetch, 1);
    match outcome
    case Success(_) =>
    case Failure(TimeoutReached) => assert false;
    case Failure(NegativeSleep) => assert false;
  }

  /** A deadline already past when the loop starts: the first check raises, although the only
      job has completed and the loop would otherwise stop. */
  method DeadlineAlreadyPast() returns (outcome: Result<seq<Job>, PollError>, sleeps: nat, fetches: nat)
    ensures outcome == Failure(TimeoutReached) && sleeps == 0 && fetches == 1
  {
    var job := JobWithStatus("job1", Running);
    var fetch := (name: Option<string>, n: nat) => JobWithStatus("job1", Completed);
    EveryThirtySecondsAdvances();
    outcome, sleeps, fetches := WaitTraining(Refresher(-1, 30), [job], fetch, EveryThirtySeconds);
    assert EveryThirtySeconds(1) > Deadline(EveryThirtySeconds(0), -1);
    assert Polled([job], fetch, 0) == PollState([job], 0);
    assert Polled([job], fetch, 1).calls == 1;
    match outcome
    case Success(_) => assert false;
    case Failure(TimeoutReached) =>
    case Failure(NegativeSleep) => assert false;
  }
}
