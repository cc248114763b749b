/**
  The grouping loop of `retrieve_jobs_to_retrain`: for each in-scope job in listing order, the
  display name is split on `_`; its first field names the group and its second is the training
  timestamp. A group seen for the first time is added; a group already present is replaced
  only when its stored timestamp is strictly older. The dictionary keeps its keys in insertion
  order (a replaced key keeps its place), so it is modelled as a sequence of groups with
  distinct names.
 */
module GroupSelection {
  import opened Results
  import opened Jobs
  import opened Text
  import opened JobGroups

  /** `re.split("_", display_name)` has a first and a second field. */
  predicate HasFields(job: Job) {
    |Split(job.displayName, '_')| >= 2
  }

  predicate AllHaveFields(jobs: seq<Job>) {
    forall i | 0 <= i < |jobs| :: HasFields(jobs[i])
  }

  /** `names[0]`. */
  function GroupOf(job: Job): string
    requires HasFields(job)
  {
    Split(job.displayName, '_')[0]
  }

  /** `names[1]`. */
  function StampOf(job: Job): string
    requires HasFields(job)
  {
    Split(job.displayName, '_')[1]
  }

  /** `JobGroup(group_name, training_timestamp, job)` for one job. */
  function GroupFor(job: Job): JobGroup
    requires HasFields(job)
  {
    JobGroup(GroupOf(job), StampOf(job), job)
  }

  /** The position of the group called `name`, as `dict.get` finds it. */
  function FindGroup(groups: seq<JobGroup>, name: string): (r: Option<nat>)
    ensures r.Some? ==> r.value < |groups| && groups[r.value].groupName == name
    ensures r.None? <==> forall k | 0 <= k < |groups| :: groups[k].groupName != name
    decreases |groups|
  {
    if |groups| == 0 then None
    else if groups[|groups| - 1].groupName == name then Some(|groups| - 1)
    else FindGroup(groups[..|groups| - 1], name)
  }

  /** One pass of the loop body. */
  function AddJob(groups: seq<JobGroup>, job: Job): seq<JobGroup>
    requires HasFields(job)
  {
    var candidate := GroupFor(job);
    match FindGroup(groups, candidate.groupName)
    case None => groups + [candidate]
    case Some(k) => if IsOlderThan(groups[k], candidate.trainingTimestamp) then groups[k := candidate] else groups
  }

  /** `list(jobs_to_retrain_dict.values())` after the loop over `jobs`. */
  function SelectNewest(jobs: seq<Job>): seq<JobGroup>
    requires AllHaveFields(jobs)
  {
    if |jobs| == 0 then []
    else AddJob(SelectNewest(jobs[..|jobs| - 1]), jobs[|jobs| - 1])
  }

  // ---------------------------------------------------------------------------
  // what the selection is, independently of how the loop builds it

  predicate DistinctNames(groups: seq<JobGroup>) {
    forall a, b | 0 <= a < b < |groups| :: groups[a].groupName != groups[b].groupName
  }

  /** Every stored group is the `JobGroup` of one of the jobs. */
  predicate DrawnFrom(jobs: seq<Job>, groups: seq<JobGroup>) {
    forall k | 0 <= k < |groups| ::
      groups[k].job in jobs && HasFields(groups[k].job) && groups[k] == GroupFor(groups[k].job)
  }

  /** Every job's group is stored. */
  predicate Covers(jobs: seq<Job>, groups: seq<JobGroup>)
    requires AllHaveFields(jobs)
  {
    forall i | 0 <= i < |jobs| :: FindGroup(groups, GroupOf(jobs[i])).Some?
  }

  /** No job of a stored group has a timestamp later than the stored one. */
  predicate Newest(jobs: seq<Job>, groups: seq<JobGroup>)
    requires AllHaveFields(jobs)
  {
    forall i, k | 0 <= i < |jobs| && 0 <= k < |groups| && groups[k].groupName == GroupOf(jobs[i]) ::
      !LexLess(groups[k].trainingTimestamp, StampOf(jobs[i]))
  }

  /** Among jobs of a group that share the stored timestamp, the stored job comes first. */
  predicate FirstOfNewest(jobs: seq<Job>, groups: seq<JobGroup>)
    requires AllHaveFields(jobs)
  {
    forall i, k | 0 <= i < |jobs| && 0 <= k < |groups|
                  && groups[k].groupName == GroupOf(jobs[i])
                  && groups[k].trainingTimestamp == StampOf(jobs[i]) ::
      groups[k].job in jobs[..i + 1]
  }

  predicate IsSelectionOf(jobs: seq<Job>, groups: seq<JobGroup>)
    requires AllHaveFields(jobs)
  {
    && DistinctNames(groups)
    && DrawnFrom(jobs, groups)
    && Covers(jobs, groups)
    && Newest(jobs, groups)
    && FirstOfNewest(jobs, groups)
  }

  lemma FindGroupFirst(groups: seq<JobGroup>, name: string, k: nat)
    requires DistinctNames(groups)
    requires k < |groups| && groups[k].groupName == name
    ensures FindGroup(groups, name) == Some(k)
  {
  }

  /** The loop keeps one group per name, each the newest of its jobs, first seen on ties. */
  lemma {:induction false} SelectNewestSpec(jobs: seq<Job>)
    requires AllHaveFields(jobs)
    ensures IsSelectionOf(jobs, SelectNewest(jobs))
    decreases |jobs|
  {
    if |jobs| > 0 {
      var n := |jobs| - 1;
      assert AllHaveFields(jobs[..n]);
      SelectNewestSpec(jobs[..n]);
      AddJobSpec(jobs, SelectNewest(jobs[..n]));
    }
  }

  /** The loop body turns a selection of all jobs but the last into a selection of all jobs. */
  lemma AddJobSpec(jobs: seq<Job>, groups: seq<JobGroup>)
    requires |jobs| > 0 && AllHaveFields(jobs)
    requires IsSelectionOf(jobs[..|jobs| - 1], groups)
    ensures IsSelectionOf(jobs, AddJob(groups, jobs[|jobs| - 1]))
  {
    var job := jobs[|jobs| - 1];
    var candidate := GroupFor(job);
    match FindGroup(groups, candidate.groupName)
    case None =>
      AddNewGroupDistinct(groups, candidate);
      AddNewGroupDrawn(jobs, groups);
      AddNewGroupCovers(jobs, groups);
      AddNewGroupNewest(jobs, groups);
      AddNewGroupFirst(jobs, groups);
    case Some(k) =>
      if IsOlderThan(groups[k], candidate.trainingTimestamp) {
        ReplaceGroupDistinct(groups, k, candidate);
        ReplaceGroupDrawn(jobs, groups, k);
        ReplaceGroupCovers(jobs, groups, k);
        ReplaceGroupNewest(jobs, groups, k);
        ReplaceGroupFirst(jobs, groups, k);
      } else {
        KeepGroupCovers(jobs, groups, k);
        KeepGroupNewest(jobs, groups, k);
        KeepGroupDrawn(jobs, groups);
        KeepGroupFirst(jobs, groups);
      }
  }

  /** What the jobs before the last one have in common with all of them. */
  lemma Prefix(jobs: seq<Job>)
    requires |jobs| > 0 && AllHaveFields(jobs)
    ensures AllHaveFields(jobs[..|jobs| - 1])
    ensures forall i | 0 <= i < |jobs| - 1 :: jobs[..|jobs| - 1][i] == jobs[i]
    ensures forall x | x in jobs[..|jobs| - 1] :: x in jobs
  {
  }

  lemma PrefixWindow(jobs: seq<Job>, i: nat)
    requires i < |jobs| - 1
    ensures jobs[..|jobs| - 1][..i + 1] == jobs[..i + 1]
  {
  }

  // a group seen for the first time is appended

  lemma AddNewGroupDistinct(groups: seq<JobGroup>, candidate: JobGroup)
    requires DistinctNames(groups)
    requires forall k | 0 <= k < |groups| :: groups[k].groupName != candidate.groupName
    ensures DistinctNames(groups + [candidate])
  {
  }

  lemma AddNewGroupDrawn(jobs: seq<Job>, groups: seq<JobGroup>)
    requires |jobs| > 0 && AllHaveFields(jobs)
    requires DrawnFrom(jobs[..|jobs| - 1], groups)
    ensures DrawnFrom(jobs, groups + [GroupFor(jobs[|jobs| - 1])])
  {
    Prefix(jobs);
  }

  lemma AddNewGroupCovers(jobs: seq<Job>, groups: seq<JobGroup>)
    requires |jobs| > 0 && AllHaveFields(jobs)
    requires AllHaveFields(jobs[..|jobs| - 1]) && Covers(jobs[..|jobs| - 1], groups)
    ensures Covers(jobs, groups + [GroupFor(jobs[|jobs| - 1])])
  {
    var n, updated := |jobs| - 1, groups + [GroupFor(jobs[|jobs| - 1])];
    Prefix(jobs);
    forall i | 0 <= i < |jobs|
      ensures FindGroup(updated, GroupOf(jobs[i])).Some?
    {
      var k := if i < n then FindGroup(groups, GroupOf(jobs[..n][i])).value else |groups|;
      assert updated[k].groupName == GroupOf(jobs[i]);
    }
  }

  lemma AddNewGroupNewest(jobs: seq<Job>, groups: seq<JobGroup>)
    requires |jobs| > 0 && AllHaveFields(jobs)
    requires AllHaveFields(jobs[..|jobs| - 1])
    requires Covers(jobs[..|jobs| - 1], groups) && Newest(jobs[..|jobs| - 1], groups)
    requires FindGroup(groups, GroupOf(jobs[|jobs| - 1])).None?
    ensures Newest(jobs, groups + [GroupFor(jobs[|jobs| - 1])])
  {
    var n, job := |jobs| - 1, jobs[|jobs| - 1];
    var updated := groups + [GroupFor(job)];
    Prefix(jobs);
    NewGroupIsNew(jobs, groups);
    forall i, k | 0 <= i < |jobs| && 0 <= k < |updated| && updated[k].groupName == GroupOf(jobs[i])
      ensures !LexLess(updated[k].trainingTimestamp, StampOf(jobs[i]))
    {
      if i < n {
        assert jobs[..n][i] == jobs[i];
      } else {
        LexLessIrreflexive(StampOf(job));
      }
    }
  }

  lemma AddNewGroupFirst(jobs: seq<Job>, groups: seq<JobGroup>)
    requires |jobs| > 0 && AllHaveFields(jobs)
    requires AllHaveFields(jobs[..|jobs| - 1])
    requires Covers(jobs[..|jobs| - 1], groups) && FirstOfNewest(jobs[..|jobs| - 1], groups)
    requires FindGroup(groups, GroupOf(jobs[|jobs| - 1])).None?
    ensures FirstOfNewest(jobs, groups + [GroupFor(jobs[|jobs| - 1])])
  {
    var n, job := |jobs| - 1, jobs[|jobs| - 1];
    var updated := groups + [GroupFor(job)];
    Prefix(jobs);
    NewGroupIsNew(jobs, groups);
    forall i, k | 0 <= i < |jobs| && 0 <= k < |updated| && updated[k].groupName == GroupOf(jobs[i])
                  && updated[k].trainingTimestamp == StampOf(jobs[i])
      ensures updated[k].job in jobs[..i + 1]
    {
      if i < n {
        assert jobs[..n][i] == jobs[i];
        PrefixWindow(jobs, i);
      }
    }
  }

  /** No earlier job belongs to a group the selection does not hold yet. */
  lemma NewGroupIsNew(jobs: seq<Job>, groups: seq<JobGroup>)
    requires |jobs| > 0 && AllHaveFields(jobs)
    requires AllHaveFields(jobs[..|jobs| - 1]) && Covers(jobs[..|jobs| - 1], groups)
    requires FindGroup(groups, GroupOf(jobs[|jobs| - 1])).None?
    ensures forall i | 0 <= i < |jobs| - 1 :: GroupOf(jobs[i]) != GroupOf(jobs[|jobs| - 1])
  {
    var n := |jobs| - 1;
    forall i | 0 <= i < n
      ensures GroupOf(jobs[i]) != GroupOf(jobs[n])
    {
      assert jobs[..n][i] == jobs[i];
      var j := FindGroup(groups, GroupOf(jobs[..n][i])).value;
      assert groups[j].groupName == GroupOf(jobs[i]);
    }
  }

  // a group with an older timestamp is replaced in place

  lemma ReplaceGroupDistinct(groups: seq<JobGroup>, k: nat, candidate: JobGroup)
    requires DistinctNames(groups)
    requires k < |groups| && groups[k].groupName == candidate.groupName
    ensures DistinctNames(groups[k := candidate])
  {
  }

  lemma ReplaceGroupDrawn(jobs: seq<Job>, groups: seq<JobGroup>, k: nat)
    requires |jobs| > 0 && AllHaveFields(jobs)
    requires DrawnFrom(jobs[..|jobs| - 1], groups)
    requires k < |groups|
    ensures DrawnFrom(jobs, groups[k := GroupFor(jobs[|jobs| - 1])])
  {
    Prefix(jobs);
  }

  lemma ReplaceGroupCovers(jobs: seq<Job>, groups: seq<JobGroup>, k: nat)
    requires |jobs| > 0 && AllHaveFields(jobs)
    requires AllHaveFields(jobs[..|jobs| - 1]) && Covers(jobs[..|jobs| - 1], groups)
    requires k < |groups| && groups[k].groupName == GroupOf(jobs[|jobs| - 1])
    ensures Covers(jobs, groups[k := GroupFor(jobs[|jobs| - 1])])
  {
    var n, updated := |jobs| - 1, groups[k := GroupFor(jobs[|jobs| - 1])];
    Prefix(jobs);
    forall i | 0 <= i < |jobs|
      ensures FindGroup(updated, GroupOf(jobs[i])).Some?
    {
      var j := if i < n then FindGroup(groups, GroupOf(jobs[..n][i])).value else k;
      assert updated[j].groupName == GroupOf(jobs[i]);
    }
  }

  /** Every earlier job of the group is strictly older than the replacing one. */
  lemma ReplacingIsNewer(jobs: seq<Job>, groups: seq<JobGroup>, k: nat)
    requires |jobs| > 0 && AllHaveFields(jobs)
    requires AllHaveFields(jobs[..|jobs| - 1]) && Newest(jobs[..|jobs| - 1], groups)
    requires k < |groups| && groups[k].groupName == GroupOf(jobs[|jobs| - 1])
    requires IsOlderThan(groups[k], StampOf(jobs[|jobs| - 1]))
    ensures forall i | 0 <= i < |jobs| - 1 && GroupOf(jobs[i]) == GroupOf(jobs[|jobs| - 1]) ::
              LexLess(StampOf(jobs[i]), StampOf(jobs[|jobs| - 1]))
  {
    var n := |jobs| - 1;
    var kept, newer := groups[k].trainingTimestamp, StampOf(jobs[n]);
    forall i | 0 <= i < n && GroupOf(jobs[i]) == GroupOf(jobs[n])
      ensures LexLess(StampOf(jobs[i]), newer)
    {
      var s := StampOf(jobs[i]);
      assert jobs[..n][i] == jobs[i];
      assert !LexLess(kept, s);
      if s != kept {
        LexLessTotal(s, kept);
        LexLessTransitive(s, kept, newer);
      }
    }
  }

  lemma ReplaceGroupNewest(jobs: seq<Job>, groups: seq<JobGroup>, k: nat)
    requires |jobs| > 0 && AllHaveFields(jobs)
    requires AllHaveFields(jobs[..|jobs| - 1]) && Newest(jobs[..|jobs| - 1], groups)
    requires DistinctNames(groups)
    requires k < |groups| && groups[k].groupName == GroupOf(jobs[|jobs| - 1])
    requires IsOlderThan(groups[k], StampOf(jobs[|jobs| - 1]))
    ensures Newest(jobs, groups[k := GroupFor(jobs[|jobs| - 1])])
  {
    var n, job := |jobs| - 1, jobs[|jobs| - 1];
    var updated := groups[k := GroupFor(job)];
    var newer := StampOf(job);
    Prefix(jobs);
    ReplacingIsNewer(jobs, groups, k);
    forall i, m | 0 <= i < |jobs| && 0 <= m < |updated| && updated[m].groupName == GroupOf(jobs[i])
      ensures !LexLess(updated[m].trainingTimestamp, StampOf(jobs[i]))
    {
      if m != k {
        assert jobs[..n][i] == jobs[i];
      } else if i < n {
        LexLessAsymmetric(StampOf(jobs[i]), newer);
      } else {
        LexLessIrreflexive(newer);
      }
    }
  }

  lemma ReplaceGroupFirst(jobs: seq<Job>, groups: seq<JobGroup>, k: nat)
    requires |jobs| > 0 && AllHaveFields(jobs)
    requires AllHaveFields(jobs[..|jobs| - 1])
    requires Newest(jobs[..|jobs| - 1], groups) && FirstOfNewest(jobs[..|jobs| - 1], groups)
    requires DistinctNames(groups)
    requires k < |groups| && groups[k].groupName == GroupOf(jobs[|jobs| - 1])
    requires IsOlderThan(groups[k], StampOf(jobs[|jobs| - 1]))
    ensures FirstOfNewest(jobs, groups[k := GroupFor(jobs[|jobs| - 1])])
  {
    var n, job := |jobs| - 1, jobs[|jobs| - 1];
    var updated := groups[k := GroupFor(job)];
    var newer := StampOf(job);
    Prefix(jobs);
    ReplacingIsNewer(jobs, groups, k);
    forall i, m | 0 <= i < |jobs| && 0 <= m < |updated| && updated[m].groupName == GroupOf(jobs[i])
                  && updated[m].trainingTimestamp == StampOf(jobs[i])
      ensures updated[m].job in jobs[..i + 1]
    {
      if m != k {
        assert jobs[..n][i] == jobs[i];
        PrefixWindow(jobs, i);
      } else if i < n {
        LexLessIrreflexive(newer);
      }
    }
  }

  // a group whose timestamp is not older is kept

  lemma KeepGroupCovers(jobs: seq<Job>, groups: seq<JobGroup>, k: nat)
    requires |jobs| > 0 && AllHaveFields(jobs)
    requires AllHaveFields(jobs[..|jobs| - 1]) && Covers(jobs[..|jobs| - 1], groups)
    requires k < |groups| && groups[k].groupName == GroupOf(jobs[|jobs| - 1])
    ensures Covers(jobs, groups)
  {
    Prefix(jobs);
    forall i | 0 <= i < |jobs|
      ensures FindGroup(groups, GroupOf(jobs[i])).Some?
    {
      if i < |jobs| - 1 {
        assert jobs[..|jobs| - 1][i] == jobs[i];
      }
    }
  }

  lemma KeepGroupNewest(jobs: seq<Job>, groups: seq<JobGroup>, k: nat)
    requires |jobs| > 0 && AllHaveFields(jobs)
    requires AllHaveFields(jobs[..|jobs| - 1]) && Newest(jobs[..|jobs| - 1], groups)
    requires DistinctNames(groups)
    requires k < |groups| && groups[k].groupName == GroupOf(jobs[|jobs| - 1])
    requires !IsOlderThan(groups[k], StampOf(jobs[|jobs| - 1]))
    ensures Newest(jobs, groups)
  {
    var n := |jobs| - 1;
    Prefix(jobs);
    forall i, m | 0 <= i < |jobs| && 0 <= m < |groups| && groups[m].groupName == GroupOf(jobs[i])
      ensures !LexLess(groups[m].trainingTimestamp, StampOf(jobs[i]))
    {
      if i < n {
        assert jobs[..n][i] == jobs[i];
      }
    }
  }

  lemma KeepGroupDrawn(jobs: seq<Job>, groups: seq<JobGroup>)
    requires |jobs| > 0 && AllHaveFields(jobs)
    requires DrawnFrom(jobs[..|jobs| - 1], groups)
    ensures DrawnFrom(jobs, groups)
  {
    Prefix(jobs);
  }

  lemma KeepGroupFirst(jobs: seq<Job>, groups: seq<JobGroup>)
    requires |jobs| > 0 && AllHaveFields(jobs)
    requires AllHaveFields(jobs[..|jobs| - 1])
    requires DrawnFrom(jobs[..|jobs| - 1], groups) && FirstOfNewest(jobs[..|jobs| - 1], groups)
    ensures FirstOfNewest(jobs, groups)
  {
    var n := |jobs| - 1;
    forall i, m | 0 <= i < |jobs| && 0 <= m < |groups| && groups[m].groupName == GroupOf(jobs[i])
                  && groups[m].trainingTimestamp == StampOf(jobs[i])
      ensures groups[m].job in jobs[..i + 1]
    {
      if i < n {
        KeptBeforeEarlierJob(jobs, groups, i, m);
      } else {
        KeptBeforeLastJob(jobs, groups, m);
      }
    }
  }

  lemma KeptBeforeLastJob(jobs: seq<Job>, groups: seq<JobGroup>, m: nat)
    requires |jobs| > 0 && m < |groups|
    requires groups[m].job in jobs[..|jobs| - 1]
    ensures groups[m].job in jobs[..|jobs|]
  {
    var j :| 0 <= j < |jobs| - 1 && jobs[..|jobs| - 1][j] == groups[m].job;
    assert jobs[..|jobs|][j] == groups[m].job;
  }

  lemma KeptBeforeEarlierJob(jobs: seq<Job>, groups: seq<JobGroup>, i: nat, m: nat)
    requires |jobs| > 0 && AllHaveFields(jobs)
    requires AllHaveFields(jobs[..|jobs| - 1]) && FirstOfNewest(jobs[..|jobs| - 1], groups)
    requires i < |jobs| - 1 && m < |groups|
    requires groups[m].groupName == GroupOf(jobs[i]) && groups[m].trainingTimestamp == StampOf(jobs[i])
    ensures groups[m].job in jobs[..i + 1]
  {
    assert jobs[..|jobs| - 1][i] == jobs[i];
    PrefixWindow(jobs, i);
  }
}
