/**
  The retrainer's unit-test situations, stated on the model: two monitored assets, the pattern
  `^model_[0-9]{14}_.*$`, and jobs whose inputs point at version `v1` of the monitored data.
 */
module ModelRetrainerScenarios {
  import opened Results
  import opened Text
  import opened Jobs
  import opened JobNamePatterns
  import opened JobGroups
  import opened GroupSelection
  import opened ModelRetrainer

  const TrainPrefix: string := "azureml://datastores/data/paths/train"
  const ValPrefix: string := "azureml://datastores/data/paths/val"

  function FixtureRetrainer(): Retrainer {
    Retrainer(OneOf(["model"]), [DataAsset("training_data", TrainPrefix), DataAsset("validation_data", ValPrefix)])
  }

  /** A listed job with the two monitored inputs. */
  function MockJob(displayName: string, trainPath: string): Job {
    Job(Some(displayName), displayName, Running,
        map["training_data" := JobInput(trainPath, "ro_mount"),
            "validation_data" := JobInput(ValPrefix + ":v1", "ro_mount")],
        "pipeline")
  }

  lemma PrefixedPathInScope(job: Job, name: string, value: string)
    requires name in job.inputs && job.inputs[name].path == value + ":v1"
    ensures IsDataAssetInScope(job, name, value)
  {
    assert forall i | 0 <= i < |value| :: job.inputs[name].path[i] == value[i];
  }

  /** A matching name with both inputs under the monitored prefixes is in scope. */
  lemma AcceptsMatchingJob()
    ensures IsInScope(FixtureRetrainer(), MockJob("model_20231115120000_abc", TrainPrefix + ":v1"))
  {
    NameMatchesExample();
    MockJobInScope(FixtureRetrainer(), MockJob("model_20231115120000_abc", TrainPrefix + ":v1"),
                   "model_20231115120000_abc");
  }

  /** A mock job with a training input under the monitored prefix is in scope exactly when its name matches. */
  lemma MockJobInScope(rt: Retrainer, job: Job, displayName: string)
    requires rt == FixtureRetrainer() && job == MockJob(displayName, TrainPrefix + ":v1")
    requires NameMatches(rt.pattern, displayName)
    ensures IsInScope(rt, job)
  {
    PrefixedPathInScope(job, "training_data", TrainPrefix);
    PrefixedPathInScope(job, "validation_data", ValPrefix);
    assert rt.dataAssets == [DataAsset("training_data", TrainPrefix), DataAsset("validation_data", ValPrefix)];
  }

  /** A name of another group is out of scope, whatever its inputs. */
  lemma RejectsOtherGroup()
    ensures !IsInScope(FixtureRetrainer(), MockJob("other_20231115120000_abc", TrainPrefix + ":v1"))
  {
    NameMismatchExample();
  }

  /** A training input outside the monitored prefix puts the job out of scope. */
  lemma RejectsWrongAsset()
    ensures !IsInScope(FixtureRetrainer(), MockJob("model_20231115120000_abc", "azureml://wrong/path:v1"))
  {
    var job := MockJob("model_20231115120000_abc", "azureml://wrong/path:v1");
    assert job.inputs["training_data"].path[10] != TrainPrefix[10];
    assert !IsDataAssetInScope(job, "training_data", TrainPrefix);
    assert FixtureRetrainer().dataAssets[0] == DataAsset("training_data", TrainPrefix);
  }

  /** An empty listing is the "No jobs in scope to retrain." error. */
  lemma NothingListed()
    ensures RetrieveJobsToRetrain(FixtureRetrainer(), []) == Failure(NoJobsInScope)
  {
  }

  /**
    Of two runs of group `model`, only the later one (13:00 against 12:00 on the same day) is
    kept.
   */
  lemma PicksNewestPerGroup(listed: seq<Job>)
    requires listed == [MockJob("model_20231115120000_abc", TrainPrefix + ":v1"),
                        MockJob("model_20231115130000_def", TrainPrefix + ":v1")]
    ensures RetrieveJobsToRetrain(FixtureRetrainer(), listed).Success?
    ensures var groups := RetrieveJobsToRetrain(FixtureRetrainer(), listed).value;
            groups == [JobGroup("model", "20231115130000", listed[1])]
  {
    var rt := FixtureRetrainer();
    AcceptsMatchingJob();
    NewJobInScope(rt, listed[1]);
    OldJobFields(listed[0]);
    NewJobFields(listed[1]);
    OlderStamp();
    RetrieveLaterOfTwo(rt, listed);
  }

  /** Listing two in-scope runs of one group, the earlier first, selects the later run alone. */
  lemma RetrieveLaterOfTwo(rt: Retrainer, listed: seq<Job>)
    requires |listed| == 2 && IsInScope(rt, listed[0]) && IsInScope(rt, listed[1])
    requires GroupOf(listed[0]) == GroupOf(listed[1]) && LexLess(StampOf(listed[0]), StampOf(listed[1]))
    ensures RetrieveJobsToRetrain(rt, listed).Success?
    ensures RetrieveJobsToRetrain(rt, listed).value == [GroupFor(listed[1])]
  {
    var inScope := InScopeJobs(rt, listed);
    var groups := RetrieveJobsToRetrain(rt, listed).value;
    InScopeOfTwo(rt, listed);
    NewestOfTwo(inScope, groups, listed[0], listed[1]);
  }

  lemma InScopeOfTwo(rt: Retrainer, listed: seq<Job>)
    requires |listed| == 2 && IsInScope(rt, listed[1])
    ensures listed[1] in InScopeJobs(rt, listed)
    ensures forall i | 0 <= i < |InScopeJobs(rt, listed)| ::
              InScopeJobs(rt, listed)[i] == listed[0] || InScopeJobs(rt, listed)[i] == listed[1]
  {
    var inScope := InScopeJobs(rt, listed);
    assert listed[1] in listed;
    forall i | 0 <= i < |inScope|
      ensures inScope[i] == listed[0] || inScope[i] == listed[1]
    {
      assert inScope[i] in inScope;
      var j :| 0 <= j < |listed| && listed[j] == inScope[i];
    }
  }

  /** A selection over runs of one group, one of them strictly later than the other, keeps only the later run. */
  lemma NewestOfTwo(jobs: seq<Job>, groups: seq<JobGroup>, oldJob: Job, newJob: Job)
    requires AllHaveFields(jobs) && DistinctNames(groups) && DrawnFrom(jobs, groups)
    requires Covers(jobs, groups) && Newest(jobs, groups)
    requires HasFields(oldJob) && HasFields(newJob) && GroupOf(oldJob) == GroupOf(newJob)
    requires LexLess(StampOf(oldJob), StampOf(newJob))
    requires newJob in jobs && forall i | 0 <= i < |jobs| :: jobs[i] == oldJob || jobs[i] == newJob
    ensures |groups| == 1 && groups[0] == GroupFor(newJob)
  {
    assert forall i | 0 <= i < |jobs| :: HasFields(jobs[i]) && GroupOf(jobs[i]) == GroupOf(newJob);
    OnlyOneGroup(jobs, groups, GroupOf(newJob));
    var i :| 0 <= i < |jobs| && jobs[i] == newJob;
    StoredIsNewest(jobs, groups, i);
    var j :| 0 <= j < |jobs| && jobs[j] == groups[0].job;
    LaterOfTwo(groups[0], oldJob, newJob, jobs[j]);
  }

  lemma StoredIsNewest(jobs: seq<Job>, groups: seq<JobGroup>, i: nat)
    requires AllHaveFields(jobs) && Newest(jobs, groups)
    requires i < |jobs| && |groups| == 1 && groups[0].groupName == GroupOf(jobs[i])
    ensures !LexLess(groups[0].trainingTimestamp, StampOf(jobs[i]))
  {
  }

  lemma LaterOfTwo(group: JobGroup, oldJob: Job, newJob: Job, stored: Job)
    requires HasFields(oldJob) && HasFields(newJob) && LexLess(StampOf(oldJob), StampOf(newJob))
    requires stored == oldJob || stored == newJob
    requires HasFields(stored) && group == GroupFor(stored)
    requires !LexLess(group.trainingTimestamp, StampOf(newJob))
    ensures group == GroupFor(newJob)
  {
  }

  lemma OlderStamp()
    ensures LexLess("20231115120000", "20231115130000")
  {
  }

  lemma NewJobInScope(rt: Retrainer, job: Job)
    requires rt == FixtureRetrainer() && job == MockJob("model_20231115130000_def", TrainPrefix + ":v1")
    ensures IsInScope(rt, job)
  {
    NewNameMatches("model_20231115130000_def");
    MockJobInScope(rt, job, "model_20231115130000_def");
  }

  lemma NewNameMatches(name: string)
    requires name == "model_20231115130000_def"
    ensures NameMatches(OneOf(["model"]), name)
  {
    assert name == "model" + ("_" + "20231115130000" + "_" + "def");
    NameMatchesFromParts(OneOf(["model"]), name, "model", "20231115130000", "def");
  }

  lemma OldJobFields(job: Job)
    requires job == MockJob("model_20231115120000_abc", TrainPrefix + ":v1")
    ensures HasFields(job) && GroupOf(job) == "model" && StampOf(job) == "20231115120000"
  {
    ModelFields(job, "20231115120000", "abc");
  }

  lemma NewJobFields(job: Job)
    requires job == MockJob("model_20231115130000_def", TrainPrefix + ":v1")
    ensures HasFields(job) && GroupOf(job) == "model" && StampOf(job) == "20231115130000"
  {
    ModelFields(job, "20231115130000", "def");
  }

  lemma ModelFields(job: Job, stamp: string, tail: string)
    requires job.displayName == "model" + "_" + stamp + "_" + tail
    requires '_' !in stamp
    ensures HasFields(job) && GroupOf(job) == "model" && StampOf(job) == stamp
  {
    SplitDisplayName("model", stamp, tail);
  }

  /** When every job belongs to one group, a selection holds that group and nothing else. */
  lemma OnlyOneGroup(jobs: seq<Job>, groups: seq<JobGroup>, name: string)
    requires |jobs| >= 1 && forall i | 0 <= i < |jobs| :: HasFields(jobs[i]) && GroupOf(jobs[i]) == name
    requires DistinctNames(groups) && DrawnFrom(jobs, groups) && Covers(jobs, groups)
    ensures |groups| == 1 && groups[0].groupName == name
  {
    assert FindGroup(groups, GroupOf(jobs[0])).Some?;
    forall k | 0 <= k < |groups|
      ensures groups[k].groupName == name
    {
      var i :| 0 <= i < |jobs| && jobs[i] == groups[k].job;
    }
    FindGroupFirst(groups, name, 0);
    assert FindGroup(groups, name) == Some(|groups| - 1);
  }
}
