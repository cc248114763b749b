/**
  `ModelRetrainer`: find the historical training jobs in scope, keep the newest per model
  group, resubmit each against the new data-asset version, and fail when any of the new
  jobs fails.

  The job-management client is passed in: `ml_client.jobs.list()` as the listed jobs,
  `jobs.create_or_update` as the oracle `create(job, n)` (the record returned by the `n`-th
  submission), and `jobs.get` through the refresher's `fetch`. `datetime.now()` is the oracle
  `now(n)` (the reading taken for the `n`-th new display name) and `random.choices` the oracle
  `pick(n)` (the index drawn for the `n`-th random character overall).
 */
module ModelRetrainer {
  import opened Results
  import opened Text
  import opened Sequences
  import opened Jobs
  import opened DateTimes
  import opened JobNamePatterns
  import opened JobGroups
  import opened GroupSelection
  import opened TrainingStatusRefresher

  /** One entry of `parameters["dataAssets"]`: an input name and the path prefix of the monitored data. */
  datatype DataAsset = DataAsset(name: string, value: string)

  /** What `featurize` settles before looking at any job: the name pattern and the monitored assets. */
  datatype Retrainer = Retrainer(pattern: GroupPattern, dataAssets: seq<DataAsset>)

  /** The exceptions that end a retraining run. */
  datatype RetrainError =
    | NoJobsInScope                              // "No jobs in scope to retrain."
    | MissingInput(input: string)                // KeyError in `update_data_assets`
    | SomeJobsFailed(displayNames: seq<string>)  // "Some jobs failed.", after logging each name
    | Polling(error: PollError)                  // raised by `wait_training`

  /** `compute_jobname_pattern` together with the configured data assets. */
  function NewRetrainer(modelNamePrefix: Option<string>, dataAssets: seq<DataAsset>): Retrainer {
    Retrainer(GroupPatternOf(modelNamePrefix), dataAssets)
  }

  // ---------------------------------------------------------------------------
  // scope

  /** `is_data_asset_in_scope`: the job has the input and its path starts with the asset's value. */
  function IsDataAssetInScope(job: Job, name: string, value: string): (r: bool)
    ensures r <==> && name in job.inputs
                   && |value| <= |job.inputs[name].path|
                   && forall i | 0 <= i < |value| :: job.inputs[name].path[i] == value[i]
  {
    if name !in job.inputs then false
    else
      var path := job.inputs[name].path;
      assert StartsWith(path, value) ==> forall i | 0 <= i < |value| :: path[i] == path[..|value|][i];
      StartsWith(path, value)
  }

  /** `are_data_assets_in_scope`: stops at the first asset out of scope. */
  function AreDataAssetsInScope(job: Job, assets: seq<DataAsset>): (r: bool)
    ensures r <==> forall k | 0 <= k < |assets| :: IsDataAssetInScope(job, assets[k].name, assets[k].value)
    decreases |assets|
  {
    if |assets| == 0 then true
    else if !IsDataAssetInScope(job, assets[0].name, assets[0].value) then false
    else
      var rest := AreDataAssetsInScope(job, assets[1..]);
      assert forall k | 1 <= k < |assets| :: assets[k] == assets[1..][k - 1];
      rest
  }

  /** `is_in_scope`: the display name matches the pattern and every asset is in scope. */
  function IsInScope(rt: Retrainer, job: Job): (r: bool)
    ensures r <==> && NameMatches(rt.pattern, job.displayName)
                   && forall k | 0 <= k < |rt.dataAssets| ::
                        IsDataAssetInScope(job, rt.dataAssets[k].name, rt.dataAssets[k].value)
    ensures r ==> HasFields(job)
  {
    if NameMatches(rt.pattern, job.displayName) then
      MatchedNameHasTwoFields(rt.pattern, job.displayName);
      AreDataAssetsInScope(job, rt.dataAssets)
    else false
  }

  /** `list(filter(self.is_in_scope, jobs))`. */
  function InScopeJobs(rt: Retrainer, jobs: seq<Job>): (r: seq<Job>)
    ensures forall j :: j in r <==> j in jobs && IsInScope(rt, j)
    ensures IsSubsequence(r, jobs)
    ensures AllHaveFields(r)
  {
    var r := Keep(jobs, (job: Job) => IsInScope(rt, job));
    assert forall i | 0 <= i < |r| :: r[i] in r;
    r
  }

  /**
    `retrieve_jobs_to_retrain`: the newest in-scope job of each group; an error when no listed
    job is in scope.
   */
  function RetrieveJobsToRetrain(rt: Retrainer, listed: seq<Job>): (r: Result<seq<JobGroup>, RetrainError>)
    ensures r.Failure? <==> forall i | 0 <= i < |listed| :: !IsInScope(rt, listed[i])
    ensures r.Failure? ==> r.error == NoJobsInScope
    ensures r.Success? ==> |r.value| >= 1 && IsSelectionOf(InScopeJobs(rt, listed), r.value)
    ensures r.Success? ==> forall k | 0 <= k < |r.value| :: r.value[k].job in listed && IsInScope(rt, r.value[k].job)
  {
    var inScope := InScopeJobs(rt, listed);
    NoneInScope(rt, listed);
    SelectNewestSpec(inScope);
    if |inScope| == 0 then Failure(NoJobsInScope)
    else
      SelectionNonEmpty(inScope, SelectNewest(inScope));
      SelectionFromListing(rt, listed, SelectNewest(inScope));
      Success(SelectNewest(inScope))
  }

  lemma NoneInScope(rt: Retrainer, listed: seq<Job>)
    ensures |InScopeJobs(rt, listed)| == 0 <==> forall i | 0 <= i < |listed| :: !IsInScope(rt, listed[i])
  {
    var inScope := InScopeJobs(rt, listed);
    if |inScope| > 0 {
      assert inScope[0] in inScope;
    } else {
      assert forall i | 0 <= i < |listed| :: listed[i] in listed;
    }
  }

  lemma SelectionNonEmpty(jobs: seq<Job>, groups: seq<JobGroup>)
    requires AllHaveFields(jobs) && |jobs| > 0
    requires Covers(jobs, groups)
    ensures |groups| >= 1
  {
    assert FindGroup(groups, GroupOf(jobs[0])).Some?;
  }

  lemma SelectionFromListing(rt: Retrainer, listed: seq<Job>, groups: seq<JobGroup>)
    requires DrawnFrom(InScopeJobs(rt, listed), groups)
    ensures forall k | 0 <= k < |groups| :: groups[k].job in listed && IsInScope(rt, groups[k].job)
  {
  }

  /**
    With alternatives free of `_`, every kept group is named by a string the group pattern
    accepts and carries a 14-digit timestamp, so "older" compares training times.
   */
  lemma SelectedGroupsAreWellFormed(rt: Retrainer, listed: seq<Job>)
    requires NoUnderscores(rt.pattern)
    requires RetrieveJobsToRetrain(rt, listed).Success?
    ensures var groups := RetrieveJobsToRetrain(rt, listed).value;
            forall k | 0 <= k < |groups| ::
              && GroupMatches(rt.pattern, groups[k].groupName)
              && |groups[k].trainingTimestamp| == 14 && AllDigits(groups[k].trainingTimestamp)
  {
    var groups := RetrieveJobsToRetrain(rt, listed).value;
    forall k | 0 <= k < |groups|
      ensures GroupMatches(rt.pattern, groups[k].groupName)
      ensures |groups[k].trainingTimestamp| == 14 && AllDigits(groups[k].trainingTimestamp)
    {
      var job := groups[k].job;
      assert IsInScope(rt, job) && groups[k] == GroupFor(job);
      assert NameMatches(rt.pattern, job.displayName);
      MatchedNameFields(rt.pattern, job.displayName);
    }
  }

  // ---------------------------------------------------------------------------
  // resubmission

  /** The value of the last asset called `name`: the one whose assignment survives the loop. */
  function LastValue(assets: seq<DataAsset>, name: string): Option<string>
    decreases |assets|
  {
    if |assets| == 0 then None
    else if assets[|assets| - 1].name == name then Some(assets[|assets| - 1].value)
    else LastValue(assets[..|assets| - 1], name)
  }

  /** An input after the loop: pointed at `value:version` if some asset names it, else untouched. */
  function Retargeted(input: JobInput, value: Option<string>, version: string): JobInput {
    match value
    case None => input
    case Some(v) => input.(path := v + ":" + version)
  }

  /** Looking from the front: a later asset of the same name overrides the first one. */
  lemma {:induction false} LastValueFromFront(assets: seq<DataAsset>, name: string)
    requires |assets| > 0
    ensures LastValue(assets, name) ==
              if LastValue(assets[1..], name).Some? then LastValue(assets[1..], name)
              else if assets[0].name == name then Some(assets[0].value)
              else None
    decreases |assets|
  {
    if |assets| > 1 {
      var n := |assets| - 1;
      assert assets[1..][..n - 1] == assets[..n][1..];
      LastValueFromFront(assets[..n], name);
    }
  }

  lemma LastValueOfDistinct(assets: seq<DataAsset>, k: nat)
    requires k < |assets|
    requires forall a, b | 0 <= a < b < |assets| :: assets[a].name != assets[b].name
    ensures LastValue(assets, assets[k].name) == Some(assets[k].value)
    decreases |assets|
  {
    if k < |assets| - 1 {
      LastValueOfDistinct(assets[..|assets| - 1], k);
    }
  }

  /** The job has an input for every configured data asset. */
  predicate HasInputs(job: Job, assets: seq<DataAsset>) {
    forall k | 0 <= k < |assets| :: assets[k].name in job.inputs
  }

  /**
    `update_data_assets`: in configuration order, point each asset's input at
    `value + ":" + version`; a configured input the job lacks raises KeyError.
   */
  function UpdateDataAssets(job: Job, assets: seq<DataAsset>, version: string): (r: Result<Job, RetrainError>)
    ensures r.Success? <==> HasInputs(job, assets)
    ensures r.Success? ==> r.value == job.(inputs := r.value.inputs) && r.value.inputs.Keys == job.inputs.Keys
    ensures r.Failure? ==> r.error.MissingInput? && r.error.input !in job.inputs
    decreases |assets|
  {
    if |assets| == 0 then Success(job)
    else if assets[0].name !in job.inputs then Failure(MissingInput(assets[0].name))
    else
      assert forall k | 1 <= k < |assets| :: assets[k] == assets[1..][k - 1];
      UpdateDataAssets(UpdateInput(job, assets[0], version), assets[1..], version)
  }

  /** One assignment `job.inputs[name].path = f"{value}:{version}"`. */
  function UpdateInput(job: Job, asset: DataAsset, version: string): (r: Job)
    requires asset.name in job.inputs
    ensures r == job.(inputs := r.inputs) && r.inputs.Keys == job.inputs.Keys
  {
    var input := job.inputs[asset.name];
    job.(inputs := job.inputs[asset.name := input.(path := asset.value + ":" + version)])
  }

  /** The KeyError names the first configured input the job lacks. */
  lemma {:induction false} UpdateDataAssetsMissing(job: Job, assets: seq<DataAsset>, version: string)
    requires UpdateDataAssets(job, assets, version).Failure?
    ensures exists k | 0 <= k < |assets| ::
              && UpdateDataAssets(job, assets, version).error == MissingInput(assets[k].name)
              && forall j | 0 <= j < k :: assets[j].name in job.inputs
    decreases |assets|
  {
    if assets[0].name in job.inputs {
      var next := UpdateInput(job, assets[0], version);
      UpdateDataAssetsMissing(next, assets[1..], version);
      var k :| 0 <= k < |assets[1..]| && UpdateDataAssets(next, assets[1..], version).error == MissingInput(assets[1..][k].name)
               && forall j | 0 <= j < k :: assets[1..][j].name in next.inputs;
      assert forall j | 1 <= j < k + 1 :: assets[j] == assets[1..][j - 1];
      assert assets[k + 1] == assets[1..][k];
    } else {
      assert UpdateDataAssets(job, assets, version).error == MissingInput(assets[0].name);
    }
  }

  /** After the loop, each input holds the last assignment to it, and nothing else changed. */
  lemma {:induction false} UpdateDataAssetsPaths(job: Job, assets: seq<DataAsset>, version: string)
    requires UpdateDataAssets(job, assets, version).Success?
    ensures var updated := UpdateDataAssets(job, assets, version).value;
            forall n | n in job.inputs :: updated.inputs[n] == Retargeted(job.inputs[n], LastValue(assets, n), version)
    decreases |assets|
  {
    if |assets| > 0 {
      var next := UpdateInput(job, assets[0], version);
      UpdateDataAssetsPaths(next, assets[1..], version);
      forall n | n in job.inputs {
        LastValueFromFront(assets, n);
      }
    }
  }

  predicate IsAlphanumeric(c: char) {
    'a' <= c <= 'z' || 'A' <= c <= 'Z' || IsDigit(c)
  }

  /** The `i`-th character of `string.ascii_letters + string.digits`: a-z, then A-Z, then 0-9. */
  function AlphabetChar(i: nat): (c: char)
    requires i < 62
    ensures IsAlphanumeric(c)
  {
    if i < 26 then ('a' as int + i) as char
    else if i < 52 then ('A' as int + (i - 26)) as char
    else ('0' as int + (i - 52)) as char
  }

  /** `"".join(random.choices(string.ascii_letters + string.digits, k=6))`, the draws numbered from `first`. */
  function RandomSuffix(pick: nat -> nat, first: nat): (s: string)
    ensures |s| == 6
    ensures forall i | 0 <= i < 6 :: s[i] == AlphabetChar(pick(first + i) % 62)
    ensures forall i | 0 <= i < |s| :: IsAlphanumeric(s[i])
  {
    seq(6, i requires 0 <= i < 6 => AlphabetChar(pick(first + i) % 62))
  }

  /** `create_new_display_name`: the group, the current time and a random suffix, joined by `_`. */
  function NewDisplayName(groupName: string, now: DateTime, suffix: string): string
    requires Valid(now)
  {
    groupName + "_" + CompactStamp(now) + "_" + suffix
  }

  /**
    A new display name is accepted by every pattern its group name is accepted by, and reads
    back, field by field, as the group, the time and the suffix.
   */
  lemma NewDisplayNameMatches(g: GroupPattern, groupName: string, now: DateTime, suffix: string)
    requires Valid(now)
    requires GroupMatches(g, groupName)
    requires forall i | 0 <= i < |suffix| :: IsAlphanumeric(suffix[i])
    ensures NameMatches(g, NewDisplayName(groupName, now, suffix))
    ensures NoUnderscores(g) ==> Split(NewDisplayName(groupName, now, suffix), '_') == [groupName, CompactStamp(now), suffix]
  {
    DisplayNameParts(g, NewDisplayName(groupName, now, suffix), groupName, CompactStamp(now), suffix);
  }

  lemma DisplayNameParts(g: GroupPattern, name: string, groupName: string, stamp: string, suffix: string)
    requires GroupMatches(g, groupName) && |stamp| == 14 && AllDigits(stamp)
    requires forall i | 0 <= i < |suffix| :: IsAlphanumeric(suffix[i])
    requires name == groupName + "_" + stamp + "_" + suffix
    ensures NameMatches(g, name)
    ensures NoUnderscores(g) ==> Split(name, '_') == [groupName, stamp, suffix]
  {
    AlphanumericTail(suffix);
    assert name == groupName + ("_" + stamp + "_" + suffix);
    NameMatchesFromParts(g, name, groupName, stamp, suffix);
    if NoUnderscores(g) {
      NewDisplayNameFields(g, groupName, stamp, suffix);
    }
  }

  lemma AlphanumericTail(suffix: string)
    requires forall i | 0 <= i < |suffix| :: IsAlphanumeric(suffix[i])
    ensures TailMatches(suffix)
  {
    forall k | 0 <= k < |suffix| ensures suffix[k] != '\n' {
      assert IsAlphanumeric(suffix[k]);
    }
  }

  lemma NewDisplayNameFields(g: GroupPattern, groupName: string, stamp: string, suffix: string)
    requires NoUnderscores(g) && GroupMatches(g, groupName) && AllDigits(stamp)
    requires forall i | 0 <= i < |suffix| :: IsAlphanumeric(suffix[i])
    ensures Split(groupName + "_" + stamp + "_" + suffix, '_') == [groupName, stamp, suffix]
  {
    GroupMatchHasNoUnderscore(g, groupName);
    DigitsHaveNoUnderscore(stamp);
    SplitDisplayName(groupName, stamp, suffix);
    assert '_' !in suffix by {
      forall k | 0 <= k < |suffix| ensures suffix[k] != '_' {
        assert IsAlphanumeric(suffix[k]);
      }
    }
    SplitWithoutSeparator(suffix, '_');
  }

  /**
    One iteration of `retrain_models` before the submission: the group's job with its data
    assets updated, no platform name (so the platform creates a new job) and a new display name.
   */
  function Resubmission(rt: Retrainer, group: JobGroup, version: string, now: DateTime, suffix: string)
    : (r: Result<Job, RetrainError>)
    requires Valid(now)
    ensures r.Success? <==> HasInputs(group.job, rt.dataAssets)
    ensures r.Success? ==>
              && r.value.name == None
              && StartsWith(r.value.displayName, group.groupName + "_")
              && r.value.status == group.job.status
              && r.value.definition == group.job.definition
    // each configured input now points at `value:version` of the last asset naming it
    ensures r.Success? ==>
              && r.value.inputs.Keys == group.job.inputs.Keys
              && forall n | n in group.job.inputs ::
                   r.value.inputs[n] == Retargeted(group.job.inputs[n], LastValue(rt.dataAssets, n), version)
    // the new display name, which NewDisplayNameMatches reads back field by field
    ensures r.Success? ==> r.value.displayName == NewDisplayName(group.groupName, now, suffix)
  {
    var updated :- UpdateDataAssets(group.job, rt.dataAssets, version);
    UpdateDataAssetsPaths(group.job, rt.dataAssets, version);
    var displayName := NewDisplayName(group.groupName, now, suffix);
    assert displayName[..|group.groupName + "_"|] == group.groupName + "_";
    Success(updated.(name := None, displayName := displayName))
  }

  /**
    The job a retraining run submits is itself in scope for the next run: its new name matches
    the pattern and every asset path now starts with the asset's value.
   */
  lemma ResubmissionStaysInScope(rt: Retrainer, job: Job, version: string, now: DateTime, pick: nat -> nat)
    requires Valid(now)
    requires IsInScope(rt, job)
    requires NoUnderscores(rt.pattern)
    requires forall a, b | 0 <= a < b < |rt.dataAssets| :: rt.dataAssets[a].name != rt.dataAssets[b].name
    ensures var r := Resubmission(rt, GroupFor(job), version, now, RandomSuffix(pick, 0));
            r.Success? && IsInScope(rt, r.value)
  {
    var group := GroupFor(job);
    var suffix := RandomSuffix(pick, 0);
    var r := Resubmission(rt, group, version, now, suffix);
    assert r.Success?;
    var updated := UpdateDataAssets(job, rt.dataAssets, version).value;
    assert r.value == updated.(name := None, displayName := NewDisplayName(group.groupName, now, suffix));
    MatchedNameFields(rt.pattern, job.displayName);
    NewDisplayNameMatches(rt.pattern, group.groupName, now, suffix);
    UpdatedAssetsInScope(rt, job, version);
    forall k | 0 <= k < |rt.dataAssets|
      ensures IsDataAssetInScope(r.value, rt.dataAssets[k].name, rt.dataAssets[k].value)
    {
      assert IsDataAssetInScope(updated, rt.dataAssets[k].name, rt.dataAssets[k].value);
    }
  }

  /** With distinct asset names, each asset's input ends up at `value:version`, which starts with `value`. */
  lemma UpdatedAssetsInScope(rt: Retrainer, job: Job, version: string)
    requires forall k | 0 <= k < |rt.dataAssets| :: rt.dataAssets[k].name in job.inputs
    requires forall a, b | 0 <= a < b < |rt.dataAssets| :: rt.dataAssets[a].name != rt.dataAssets[b].name
    ensures var updated := UpdateDataAssets(job, rt.dataAssets, version).value;
            forall k | 0 <= k < |rt.dataAssets| ::
              IsDataAssetInScope(updated, rt.dataAssets[k].name, rt.dataAssets[k].value)
  {
    var updated := UpdateDataAssets(job, rt.dataAssets, version).value;
    UpdateDataAssetsPaths(job, rt.dataAssets, version);
    forall k | 0 <= k < |rt.dataAssets|
      ensures IsDataAssetInScope(updated, rt.dataAssets[k].name, rt.dataAssets[k].value)
    {
      var asset := rt.dataAssets[k];
      LastValueOfDistinct(rt.dataAssets, k);
      assert updated.inputs[asset.name].path == asset.value + ":" + version;
    }
  }

  /**
    `retrain_models`: one resubmission per group, in order. The `i`-th display name takes the
    reading `now(i)` and the draws `6 * i` to `6 * i + 5`; the `i`-th submission returns
    `create(job, i)`. A missing input stops the loop with its KeyError.
   */
  method RetrainModels(rt: Retrainer, groups: seq<JobGroup>, version: string,
                       now: nat -> DateTime, pick: nat -> nat, create: (Job, nat) -> Job)
    returns (outcome: Result<seq<Job>, RetrainError>, submitted: seq<Job>)
    requires forall i: nat :: Valid(now(i))
    ensures outcome.Success? <==>
              forall i | 0 <= i < |groups| :: HasInputs(groups[i].job, rt.dataAssets)
    ensures outcome.Success? ==>
              && |outcome.value| == |submitted| == |groups|
              && forall i | 0 <= i < |groups| ::
                   && Resubmission(rt, groups[i], version, now(i), RandomSuffix(pick, 6 * i)) == Success(submitted[i])
                   && outcome.value[i] == create(submitted[i], i)
  {
    var created: seq<Job> := [];
    submitted := [];
    var i := 0;
    while i < |groups|
      invariant 0 <= i <= |groups|
      invariant |created| == |submitted| == i
      invariant Resubmitted(rt, groups, version, now, pick, create, submitted, created)
    {
      var next := Resubmission(rt, groups[i], version, now(i), RandomSuffix(pick, 6 * i));
      if next.Failure? {
        outcome := Failure(next.error);
        return;
      }
      ResubmittedStep(rt, groups, version, now, pick, create, submitted, created, next.value);
      submitted := submitted + [next.value];
      created := created + [create(next.value, i)];
      i := i + 1;
    }
    ResubmittedAll(rt, groups, version, now, pick, create, submitted, created);
    assert forall j | 0 <= j < |groups| :: Resubmission(rt, groups[j], version, now(j), RandomSuffix(pick, 6 * j)).Success?;
    outcome := Success(created);
  }

  /** The first `|submitted|` groups were resubmitted, in order, as `submitted`, and came back as `created`. */
  ghost predicate Resubmitted(rt: Retrainer, groups: seq<JobGroup>, version: string, now: nat -> DateTime,
                              pick: nat -> nat, create: (Job, nat) -> Job, submitted: seq<Job>, created: seq<Job>)
    requires forall i: nat :: Valid(now(i))
    requires |created| == |submitted| <= |groups|
    decreases |submitted|
  {
    var n := |submitted|;
    n == 0 ||
    (&& Resubmitted(rt, groups, version, now, pick, create, submitted[..n - 1], created[..n - 1])
     && Resubmission(rt, groups[n - 1], version, now(n - 1), RandomSuffix(pick, 6 * (n - 1))) == Success(submitted[n - 1])
     && created[n - 1] == create(submitted[n - 1], n - 1))
  }

  lemma {:induction false} ResubmittedAll(rt: Retrainer, groups: seq<JobGroup>, version: string, now: nat -> DateTime,
                                          pick: nat -> nat, create: (Job, nat) -> Job, submitted: seq<Job>, created: seq<Job>)
    requires forall i: nat :: Valid(now(i))
    requires |created| == |submitted| <= |groups|
    requires Resubmitted(rt, groups, version, now, pick, create, submitted, created)
    ensures forall j | 0 <= j < |submitted| ::
              && Resubmission(rt, groups[j], version, now(j), RandomSuffix(pick, 6 * j)) == Success(submitted[j])
              && created[j] == create(submitted[j], j)
    decreases |submitted|
  {
    var n := |submitted|;
    if n > 0 {
      var earlier, earlierCreated := submitted[..n - 1], created[..n - 1];
      ResubmittedAll(rt, groups, version, now, pick, create, earlier, earlierCreated);
      forall j | 0 <= j < n
        ensures Resubmission(rt, groups[j], version, now(j), RandomSuffix(pick, 6 * j)) == Success(submitted[j])
        ensures created[j] == create(submitted[j], j)
      {
        if j < n - 1 {
          assert earlier[j] == submitted[j] && earlierCreated[j] == created[j];
        }
      }
    }
  }

  lemma ResubmittedStep(rt: Retrainer, groups: seq<JobGroup>, version: string, now: nat -> DateTime,
                        pick: nat -> nat, create: (Job, nat) -> Job, submitted: seq<Job>, created: seq<Job>, next: Job)
    requires forall i: nat :: Valid(now(i))
    requires |created| == |submitted| < |groups|
    requires Resubmitted(rt, groups, version, now, pick, create, submitted, created)
    requires Resubmission(rt, groups[|submitted|], version, now(|submitted|), RandomSuffix(pick, 6 * |submitted|)) == Success(next)
    ensures Resubmitted(rt, groups, version, now, pick, create, submitted + [next], created + [create(next, |submitted|)])
  {
    assert (submitted + [next])[..|submitted|] == submitted;
    assert (created + [create(next, |submitted|)])[..|submitted|] == created;
  }

  // ---------------------------------------------------------------------------
  // success check

  function DisplayNames(jobs: seq<Job>): (r: seq<string>)
    ensures |r| == |jobs| && forall i | 0 <= i < |jobs| :: r[i] == jobs[i].displayName
  {
    seq(|jobs|, i requires 0 <= i < |jobs| => jobs[i].displayName)
  }

  /**
    `check_success`: wait for the submitted jobs and raise when any is left over, listing
    their display names. The outcome is decided by polling alone: a pass when it leaves no
    job, "Some jobs failed" when it stops with jobs that all ended "Failed", and otherwise
    the refresher's own error.
   */
  method CheckSuccess(rf: Refresher, jobs: seq<Job>, fetch: (Option<string>, nat) -> Job, clock: nat -> int)
    returns (outcome: Outcome<RetrainError>, sleeps: nat)
    requires Advances(clock)
    // every completed iteration passed its timeout check and, but for the last, had to wait
    ensures forall i | 1 <= i <= sleeps :: clock(i) <= Deadline(clock(0), rf.timeoutDelay)
    ensures forall i | 1 <= i < sleeps :: WaitsAfter(jobs, fetch, i)
    ensures outcome.Pass? ==>
              && sleeps >= 1
              && Polled(jobs, fetch, sleeps).tracked == []
              && !WaitsAfter(jobs, fetch, sleeps)
    ensures outcome.Fail? && outcome.error.SomeJobsFailed? ==>
              && sleeps >= 1
              && var left := Polled(jobs, fetch, sleeps).tracked;
                 && |left| >= 1
                 && outcome.error.displayNames == DisplayNames(left)
                 && forall i | 0 <= i < |left| :: left[i].status == Failed
    ensures outcome.Fail? && outcome.error.SomeJobsFailed? ==> !WaitsAfter(jobs, fetch, sleeps)
    ensures outcome.Fail? ==> outcome.error.SomeJobsFailed? || outcome.error.Polling?
    ensures outcome.Fail? && outcome.error.Polling? ==>
              outcome.error.error == TimeoutReached || outcome.error.error == NegativeSleep
    // "Timeout reached": the clock read after the last completed iteration is past the deadline
    ensures outcome == Fail(Polling(TimeoutReached)) ==>
              && clock(sleeps + 1) > Deadline(clock(0), rf.timeoutDelay)
              && (sleeps >= 1 ==> WaitsAfter(jobs, fetch, sleeps))
    ensures outcome == Fail(Polling(NegativeSleep)) <==>
              rf.refreshDelay < 0 && clock(1) <= Deadline(clock(0), rf.timeoutDelay)
    ensures outcome == Fail(Polling(NegativeSleep)) ==> sleeps == 0
  {
    var waited, fetches;
    waited, sleeps, fetches := WaitTraining(rf, jobs, fetch, clock);
    match waited
    case Failure(e) =>
      outcome := Fail(Polling(e));
    case Success(left) =>
      if |left| > 0 {
        HasToWaitIsAny(left);
        outcome := Fail(SomeJobsFailed(DisplayNames(left)));
      } else {
        outcome := Pass;
      }
  }
}
