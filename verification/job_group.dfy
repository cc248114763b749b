/**
  A retraining candidate: the newest job seen so far for one group of display names.
 */
module JobGroups {
  import opened Jobs
  import opened Text

  /**
    `JobGroup(group_name, training_timestamp, job)`. The constructor stores its arguments as
    they are. The timestamp is the second `_`-separated field of the display name, so it is
    text, although the class annotates it as `int`.
   */
  datatype JobGroup = JobGroup(groupName: string, trainingTimestamp: string, job: Job)

  /** `is_older_than`: the stored timestamp sorts strictly before `other` as Python `str`. */
  predicate IsOlderThan(g: JobGroup, other: string) {
    LexLess(g.trainingTimestamp, other)
  }

  /** A group is never older than its own timestamp. */
  lemma IsOlderThanIrreflexive(g: JobGroup)
    ensures !IsOlderThan(g, g.trainingTimestamp)
  {
    LexLessIrreflexive(g.trainingTimestamp);
  }

  /** Of two timestamps, at most one is older than the other. */
  lemma IsOlderThanAsymmetric(g: JobGroup, h: JobGroup)
    requires IsOlderThan(g, h.trainingTimestamp)
    ensures !IsOlderThan(h, g.trainingTimestamp)
  {
    LexLessAsymmetric(g.trainingTimestamp, h.trainingTimestamp);
  }

  lemma IsOlderThanTransitive(g: JobGroup, h: JobGroup, other: string)
    requires IsOlderThan(g, h.trainingTimestamp) && IsOlderThan(h, other)
    ensures IsOlderThan(g, other)
  {
    LexLessTransitive(g.trainingTimestamp, h.trainingTimestamp, other);
  }

  /**
    On the 14-digit timestamps the grouping loop stores, "older" is "numerically smaller",
    so comparing the text picks the later training run.
   */
  lemma IsOlderThanIsNumeric(g: JobGroup, other: string)
    requires |g.trainingTimestamp| == 14 && AllDigits(g.trainingTimestamp)
    requires |other| == 14 && AllDigits(other)
    ensures IsOlderThan(g, other) <==> ValueOf(g.trainingTimestamp) < ValueOf(other)
  {
    LexLessIsNumericLess(g.trainingTimestamp, other);
  }
}
