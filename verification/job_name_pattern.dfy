/**
  The display-name pattern that decides which historical jobs are retraining candidates.

  `compute_jobname_pattern` builds the text `^G_[0-9]{14}_.*$`, where `G` is either the default
  group class `[a-z,0-9]{2,}` or, when a model-name prefix is configured, the prefix's
  comma-separated alternatives written as `(a|b|...)`. `is_in_scope` applies it with `re.match`.
  The text is modelled by `ComputeJobNamePattern`; what `re.match` does with it is modelled by
  `NameMatches` on the `GroupPattern` the same prefix selects, each alternative taken as a
  literal string.
 */
module JobNamePatterns {
  import opened Results
  import opened Text

  /** The group part `G` of the pattern. */
  datatype GroupPattern =
    | AnyGroup                           // `[a-z,0-9]{2,}`
    | OneOf(alternatives: seq<string>)   // `(a|b|...)`

  const DefaultGroupClass: string := "[a-z,0-9]{2,}"
  const StampAndTail: string := "_[0-9]{14}_.*$"

  /** `compute_jobname_pattern`: the regular expression, as text, for an optional model-name prefix. */
  function ComputeJobNamePattern(modelNamePrefix: Option<string>): (pattern: string)
    ensures modelNamePrefix.None? ==> pattern == "^[a-z,0-9]{2,}_[0-9]{14}_.*$"
    ensures modelNamePrefix.Some? ==>
              pattern == "^(" + Join(Split(modelNamePrefix.value, ','), '|') + ")_[0-9]{14}_.*$"
  {
    match modelNamePrefix
    case None =>
      var pattern := "^" + DefaultGroupClass + StampAndTail;
      DefaultPatternText(pattern);
      pattern
    case Some(prefix) =>
      var alternatives := ReplaceChar(prefix, ',', '|');
      var pattern := "^" + "(" + alternatives + ")" + StampAndTail;
      JoinSplitIsReplace(prefix, ',', '|');
      GroupPatternText(alternatives, pattern);
      pattern
  }

  lemma DefaultPatternText(pattern: string)
    requires pattern == "^" + DefaultGroupClass + StampAndTail
    ensures pattern == "^[a-z,0-9]{2,}_[0-9]{14}_.*$"
  {
  }

  lemma GroupPatternText(alternatives: string, pattern: string)
    requires pattern == "^" + "(" + alternatives + ")" + StampAndTail
    ensures pattern == "^(" + alternatives + ")_[0-9]{14}_.*$"
  {
  }

  /** The prefix "modelA,modelB" restricts retraining to two alternatives. */
  lemma ComputeJobNamePatternExample()
    ensures ComputeJobNamePattern(Some("modelA,modelB")) == "^(modelA|modelB)_[0-9]{14}_.*$"
  {
    ExampleAlternatives();
    WrapAlternatives(Join(Split("modelA,modelB", ','), '|'));
  }

  lemma ExampleAlternatives()
    ensures Join(Split("modelA,modelB", ','), '|') == "modelA|modelB"
  {
    ExampleSplit();
    ExampleJoin();
  }

  lemma ExampleJoin()
    ensures Join(["modelA", "modelB"], '|') == "modelA|modelB"
  {
    assert ["modelA", "modelB"][1..] == ["modelB"];
  }

  lemma ExampleSplit()
    ensures Split("modelA,modelB", ',') == ["modelA", "modelB"]
  {
    assert "modelA,modelB" == "modelA" + [','] + "modelB";
    SplitAtFirstSeparator("modelA", ',', "modelB");
    SplitWithoutSeparator("modelB", ',');
  }

  lemma WrapAlternatives(alternatives: string)
    requires alternatives == "modelA|modelB"
    ensures "^(" + alternatives + ")_[0-9]{14}_.*$" == "^(modelA|modelB)_[0-9]{14}_.*$"
  {
  }

  /** The group pattern the same prefix selects. */
  function GroupPatternOf(modelNamePrefix: Option<string>): (g: GroupPattern)
    ensures modelNamePrefix.None? <==> g.AnyGroup?
    ensures modelNamePrefix.Some? ==> g.alternatives == Split(modelNamePrefix.value, ',')
  {
    match modelNamePrefix
    case None => AnyGroup
    case Some(prefix) => OneOf(Split(prefix, ','))
  }

  // ---------------------------------------------------------------------------
  // what `re.match` accepts

  /** `[a-z,0-9]`. */
  predicate IsGroupChar(c: char) {
    'a' <= c <= 'z' || c == ',' || IsDigit(c)
  }

  /** `G` matches exactly the string `s`. */
  predicate GroupMatches(g: GroupPattern, s: string) {
    match g
    case AnyGroup => |s| >= 2 && forall i | 0 <= i < |s| :: IsGroupChar(s[i])
    case OneOf(alternatives) => s in alternatives
  }

  /**
    `.*$` matches exactly the rest `s` of the name: `.` takes anything but a line feed, and `$`
    also matches just before a line feed that ends the string.
   */
  predicate TailMatches(s: string) {
    forall i | 0 <= i < |s| :: s[i] == '\n' ==> i == |s| - 1
  }

  /** `_[0-9]{14}_.*$` matches exactly the rest `s` of the name. */
  predicate SuffixMatches(s: string) {
    && |s| >= 16
    && s[0] == '_'
    && AllDigits(s[1..15])
    && s[15] == '_'
    && TailMatches(s[16..])
  }

  /** `re.match("^G_[0-9]{14}_.*$", name)` succeeds: some split of the name matches both halves. */
  predicate NameMatches(g: GroupPattern, name: string) {
    exists i | 0 <= i <= |name| :: GroupMatches(g, name[..i]) && SuffixMatches(name[i..])
  }

  /** No alternative contains the field separator of display names. */
  predicate NoUnderscores(g: GroupPattern) {
    g.OneOf? ==> forall k | 0 <= k < |g.alternatives| :: '_' !in g.alternatives[k]
  }

  lemma GroupMatchHasNoUnderscore(g: GroupPattern, s: string)
    requires NoUnderscores(g) && GroupMatches(g, s)
    ensures '_' !in s
  {
    if g.OneOf? {
      var k :| 0 <= k < |g.alternatives| && g.alternatives[k] == s;
    } else {
      forall i | 0 <= i < |s|
        ensures s[i] != '_'
      {
        assert IsGroupChar(s[i]);
      }
    }
  }

  /** `group + "_" + stamp + "_" + tail` splits on `_` into the group, the stamp and the tail's fields. */
  lemma SplitDisplayName(group: string, stamp: string, tail: string)
    requires '_' !in group && '_' !in stamp
    ensures Split(group + "_" + stamp + "_" + tail, '_') == [group, stamp] + Split(tail, '_')
  {
    var rest := stamp + "_" + tail;
    assert group + "_" + stamp + "_" + tail == group + ['_'] + rest;
    SplitAtFirstSeparator(group, '_', rest);
    assert rest == stamp + ['_'] + tail;
    SplitAtFirstSeparator(stamp, '_', tail);
  }

  lemma DigitsHaveNoUnderscore(s: string)
    requires AllDigits(s)
    ensures '_' !in s
  {
    forall i | 0 <= i < |s|
      ensures s[i] != '_'
    {
      assert IsDigit(s[i]);
    }
  }

  /** A rest of the name that `_[0-9]{14}_.*$` matches is an underscore, the stamp, an underscore and the tail. */
  lemma SuffixFields(s: string)
    requires SuffixMatches(s)
    ensures s == "_" + s[1..15] + "_" + s[16..]
  {
  }

  /**
    A name the pattern accepts splits on `_` into at least three fields: a string `G` matches,
    then a 14-digit timestamp. This is what the grouping loop reads with `re.split("_", name)`.
   */
  lemma MatchedNameFields(g: GroupPattern, name: string)
    requires NoUnderscores(g) && NameMatches(g, name)
    ensures var parts := Split(name, '_');
              && |parts| >= 3
              && GroupMatches(g, parts[0])
              && |parts[1]| == 14 && AllDigits(parts[1])
              && TailMatches(Join(parts[2..], '_'))
  {
    var i :| 0 <= i <= |name| && GroupMatches(g, name[..i]) && SuffixMatches(name[i..]);
    var group, rest := name[..i], name[i..];
    SuffixFields(rest);
    assert name == group + rest;
    FieldsOfMatch(g, name, group, rest[1..15], rest[16..]);
  }

  lemma FieldsOfMatch(g: GroupPattern, name: string, group: string, stamp: string, tail: string)
    requires NoUnderscores(g) && GroupMatches(g, group)
    requires |stamp| == 14 && AllDigits(stamp) && TailMatches(tail)
    requires name == group + ("_" + stamp + "_" + tail)
    ensures var parts := Split(name, '_');
              && |parts| >= 3
              && GroupMatches(g, parts[0])
              && |parts[1]| == 14 && AllDigits(parts[1])
              && TailMatches(Join(parts[2..], '_'))
  {
    GroupMatchHasNoUnderscore(g, group);
    DigitsHaveNoUnderscore(stamp);
    assert name == group + "_" + stamp + "_" + tail;
    SplitDisplayName(group, stamp, tail);
    var parts := Split(group + "_" + stamp + "_" + tail, '_');
    assert parts[2..] == Split(tail, '_');
    JoinSplitRoundTrip(tail, '_');
  }

  /** Conversely, fields of that shape, joined with `_`, make a name the pattern accepts. */
  lemma NameMatchesFromFields(g: GroupPattern, parts: seq<string>)
    requires |parts| >= 3
    requires GroupMatches(g, parts[0])
    requires |parts[1]| == 14 && AllDigits(parts[1])
    requires TailMatches(Join(parts[2..], '_'))
    ensures NameMatches(g, Join(parts, '_'))
  {
    var name := Join(parts, '_');
    var tail := Join(parts[2..], '_');
    assert parts[1..][1..] == parts[2..];
    assert Join(parts[1..], '_') == parts[1] + ['_'] + tail;
    assert name == parts[0] + ("_" + parts[1] + "_" + tail);
    NameMatchesFromParts(g, name, parts[0], parts[1], tail);
  }

  /** A group, a 14-digit stamp and a tail, joined with `_`, make a name the pattern accepts. */
  lemma NameMatchesFromParts(g: GroupPattern, name: string, group: string, stamp: string, tail: string)
    requires GroupMatches(g, group) && |stamp| == 14 && AllDigits(stamp) && TailMatches(tail)
    requires name == group + ("_" + stamp + "_" + tail)
    ensures NameMatches(g, name)
  {
    var i := |group|;
    var rest := name[i..];
    assert name[..i] == group;
    assert rest == "_" + stamp + "_" + tail;
    assert rest[1..15] == stamp;
    assert rest[16..] == tail;
    assert SuffixMatches(rest);
  }

  /** Any name the pattern accepts holds an underscore, so `re.split` yields at least two fields. */
  lemma MatchedNameHasTwoFields(g: GroupPattern, name: string)
    requires NameMatches(g, name)
    ensures |Split(name, '_')| >= 2
  {
    var i :| 0 <= i <= |name| && GroupMatches(g, name[..i]) && SuffixMatches(name[i..]);
    assert name[i] == '_';
    SplitHasTwoFields(name, '_');
  }

  /** The pattern `^model_[0-9]{14}_.*$` accepts "model_20231115120000_abc". */
  lemma NameMatchesExample()
    ensures NameMatches(OneOf(["model"]), "model_20231115120000_abc")
  {
    var name := "model_20231115120000_abc";
    assert name[..5] == "model";
    ExampleSuffix(name[5..]);
    assert GroupMatches(OneOf(["model"]), name[..5]) && SuffixMatches(name[5..]);
  }

  lemma ExampleSuffix(rest: string)
    requires rest == "_20231115120000_abc"
    ensures SuffixMatches(rest)
  {
    assert rest[1..15] == "20231115120000";
    assert rest[16..] == "abc";
  }

  /** The pattern `^model_[0-9]{14}_.*$` rejects "other_20231115120000_abc". */
  lemma NameMismatchExample()
    ensures !NameMatches(OneOf(["model"]), "other_20231115120000_abc")
  {
    var name := "other_20231115120000_abc";
    forall i | 0 <= i <= |name|
      ensures !GroupMatches(OneOf(["model"]), name[..i])
    {
      var group := name[..i];
      if i == 5 {
        assert group[0] == 'o' && "model"[0] == 'm';
      } else {
        assert |group| != |"model"|;
      }
      assert group != "model";
    }
  }
}
