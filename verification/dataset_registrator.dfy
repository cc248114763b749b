/**
  `DatasetRegistrator`: the pipeline stage that registers a new version of the training data.
  It reads six text parameters from the job configuration, stamps the version with the current
  time, hands both to `DataAssetRegistrator` and publishes the version for the retraining stage.
 */
module DatasetRegistrator {
  import opened Results
  import opened Text
  import opened JobConfig
  import opened DateTimes
  import opened DataAssetRegistrator

  // ---------------------------------------------------------------------------
  // load_parameters

  /** One entry of the parameter dictionary: its key and where its value sits in the configuration. */
  datatype Source = Source(key: string, path: seq<string>)

  /** The dictionary `load_parameters` builds, in the order Python evaluates its values. */
  const Sources: seq<Source> := [
    Source("subscription_id", ["azml", "subscriptionId"]),
    Source("resource_group", ["azml", "resourceGroup"]),
    Source("ml_workspace_name", ["azml", "mlWorkspaceName"]),
    Source("storage_account_name", ["storageAccountName"]),
    Source("container_name", ["containerName"]),
    Source("container_path", ["containerDataPath"])
  ]

  lemma SourcesLayout()
    ensures |Sources| == 6
    ensures Sources[0] == Source("subscription_id", ["azml", "subscriptionId"])
    ensures Sources[1] == Source("resource_group", ["azml", "resourceGroup"])
    ensures Sources[2] == Source("ml_workspace_name", ["azml", "mlWorkspaceName"])
    ensures Sources[3] == Source("storage_account_name", ["storageAccountName"])
    ensures Sources[4] == Source("container_name", ["containerName"])
    ensures Sources[5] == Source("container_path", ["containerDataPath"])
  {
  }

  /** `config[path[0]][path[1]]...`, where the last value is expected to be text. */
  function Leaf(config: ConfigValue, path: seq<string>): Result<string, ConfigError>
    decreases |path|
  {
    if |path| == 0 then
      if config.Str? then Success(config.text) else Failure(NotText(""))
    else if |path| == 1 then
      GetText(config, path[0])
    else
      var v :- Get(config, path[0]);
      Leaf(v, path[1..])
  }

  /** Every parameter the stage reads is present and is text. */
  predicate HasParameters(config: ConfigValue) {
    forall i | 0 <= i < |Sources| :: Leaf(config, Sources[i].path).Success?
  }

  /** The parameter dictionary the table describes, for a configuration that has all its entries. */
  predicate IsParameterDictionary(config: ConfigValue, parameters: map<string, string>)
    requires HasParameters(config)
  {
    && parameters.Keys == (set i | 0 <= i < |Sources| :: Sources[i].key)
    && forall i | 0 <= i < |Sources| :: parameters[Sources[i].key] == Leaf(config, Sources[i].path).value
  }

  /** Lookup `i` is the first of the table's lookups to fail, and it fails with `e`. */
  predicate FailsFirstAt(config: ConfigValue, i: nat, e: ConfigError) {
    && i < |Sources|
    && Leaf(config, Sources[i].path) == Failure(e)
    && forall j | 0 <= j < i :: Leaf(config, Sources[j].path).Success?
  }

  /**
    `load_parameters`. Python evaluates the dictionary's values in order, so the exception raised
    is the one of the first lookup that fails.
   */
  function LoadParameters(config: ConfigValue): (r: Result<map<string, string>, ConfigError>)
    ensures r.Success? <==> HasParameters(config)
    ensures r.Failure? ==> exists i :: FailsFirstAt(config, i, r.error)
  {
    SourcesLayout();
    match Leaf(config, ["azml", "subscriptionId"])
    case Failure(e) => assert FailsFirstAt(config, 0, e); Failure(e)
    case Success(subscriptionId) =>
    match Leaf(config, ["azml", "resourceGroup"])
    case Failure(e) => assert FailsFirstAt(config, 1, e); Failure(e)
    case Success(resourceGroup) =>
    match Leaf(config, ["azml", "mlWorkspaceName"])
    case Failure(e) => assert FailsFirstAt(config, 2, e); Failure(e)
    case Success(workspace) =>
    match Leaf(config, ["storageAccountName"])
    case Failure(e) => assert FailsFirstAt(config, 3, e); Failure(e)
    case Success(accountName) =>
    match Leaf(config, ["containerName"])
    case Failure(e) => assert FailsFirstAt(config, 4, e); Failure(e)
    case Success(containerName) =>
    match Leaf(config, ["containerDataPath"])
    case Failure(e) => assert FailsFirstAt(config, 5, e); Failure(e)
    case Success(containerPath) =>
    Success(map[
      "subscription_id" := subscriptionId,
      "resource_group" := resourceGroup,
      "ml_workspace_name" := workspace,
      "storage_account_name" := accountName,
      "container_name" := containerName,
      "container_path" := containerPath
    ])
  }

  /** On success, every key of the table maps to the text at its place in the configuration, and no other key is present. */
  lemma LoadParametersContents(config: ConfigValue)
    requires LoadParameters(config).Success?
    ensures IsParameterDictionary(config, LoadParameters(config).value)
  {
    SourcesLayout();
    var subscriptionId := Leaf(config, ["azml", "subscriptionId"]).value;
    var resourceGroup := Leaf(config, ["azml", "resourceGroup"]).value;
    var workspace := Leaf(config, ["azml", "mlWorkspaceName"]).value;
    var accountName := Leaf(config, ["storageAccountName"]).value;
    var containerName := Leaf(config, ["containerName"]).value;
    var containerPath := Leaf(config, ["containerDataPath"]).value;
    DictionaryOfLeaves(config, LoadParameters(config).value,
                       subscriptionId, resourceGroup, workspace, accountName, containerName, containerPath);
  }

  /** The keys of the table, as a set. */
  lemma SourceKeys()
    ensures (set i | 0 <= i < |Sources| :: Sources[i].key)
            == {"subscription_id", "resource_group", "ml_workspace_name",
                "storage_account_name", "container_name", "container_path"}
  {
    SourcesLayout();
    var keys := set i | 0 <= i < |Sources| :: Sources[i].key;
    assert Sources[0].key in keys && Sources[1].key in keys && Sources[2].key in keys;
    assert Sources[3].key in keys && Sources[4].key in keys && Sources[5].key in keys;
  }

  lemma DictionaryOfLeaves(config: ConfigValue, p: map<string, string>,
                           subscriptionId: string, resourceGroup: string, workspace: string,
                           accountName: string, containerName: string, containerPath: string)
    requires Leaf(config, Sources[0].path) == Success(subscriptionId)
    requires Leaf(config, Sources[1].path) == Success(resourceGroup)
    requires Leaf(config, Sources[2].path) == Success(workspace)
    requires Leaf(config, Sources[3].path) == Success(accountName)
    requires Leaf(config, Sources[4].path) == Success(containerName)
    requires Leaf(config, Sources[5].path) == Success(containerPath)
    requires p == map[
      "subscription_id" := subscriptionId,
      "resource_group" := resourceGroup,
      "ml_workspace_name" := workspace,
      "storage_account_name" := accountName,
      "container_name" := containerName,
      "container_path" := containerPath]
    ensures HasParameters(config) && IsParameterDictionary(config, p)
  {
    SourcesLayout();
    SourceKeys();
    forall i | 0 <= i < |Sources|
      ensures Leaf(config, Sources[i].path).Success?
      ensures Sources[i].key in p && p[Sources[i].key] == Leaf(config, Sources[i].path).value
    {
      // one case per entry of the table
      if i == 0 {
      } else if i == 1 {
      } else if i == 2 {
      } else if i == 3 {
      } else if i == 4 {
      } else {
      }
    }
  }

  /** A configuration without the `azml` section fails on the first value Python evaluates. */
  lemma LoadParametersWithoutAzml(entries: map<string, ConfigValue>)
    requires "azml" !in entries
    ensures LoadParameters(Section(entries)) == Failure(MissingKey("azml"))
  {
  }

  /** The configuration of the stage's unit test yields the six expected parameters. */
  lemma LoadParametersExample(config: ConfigValue)
    requires config == Section(map[
      "azml" := Section(map[
        "subscriptionId" := Str("test-sub"),
        "resourceGroup" := Str("test-rg"),
        "mlWorkspaceName" := Str("test-workspace")]),
      "storageAccountName" := Str("teststorage"),
      "containerName" := Str("testcontainer"),
      "containerDataPath" := Str("data/path")])
    ensures LoadParameters(config).Success?
    ensures var p := LoadParameters(config).value;
            && p["subscription_id"] == "test-sub"
            && p["resource_group"] == "test-rg"
            && p["ml_workspace_name"] == "test-workspace"
            && p["storage_account_name"] == "teststorage"
            && p["container_name"] == "testcontainer"
            && p["container_path"] == "data/path"
  {
    var azml := config.entries["azml"];
    ExampleAzmlLeaves(config, azml);
    assert Leaf(config, ["storageAccountName"]) == Success("teststorage");
    assert Leaf(config, ["containerName"]) == Success("testcontainer");
    assert Leaf(config, ["containerDataPath"]) == Success("data/path");
  }

  lemma ExampleAzmlLeaves(config: ConfigValue, azml: ConfigValue)
    requires config.Section? && "azml" in config.entries && azml == config.entries["azml"]
    requires azml == Section(map[
        "subscriptionId" := Str("test-sub"),
        "resourceGroup" := Str("test-rg"),
        "mlWorkspaceName" := Str("test-workspace")])
    ensures Leaf(config, ["azml", "subscriptionId"]) == Success("test-sub")
    ensures Leaf(config, ["azml", "resourceGroup"]) == Success("test-rg")
    ensures Leaf(config, ["azml", "mlWorkspaceName"]) == Success("test-workspace")
  {
    assert Leaf(config, ["azml", "subscriptionId"]) == Leaf(azml, ["subscriptionId"]);
    assert Leaf(config, ["azml", "resourceGroup"]) == Leaf(azml, ["resourceGroup"]);
    assert Leaf(config, ["azml", "mlWorkspaceName"]) == Leaf(azml, ["mlWorkspaceName"]);
  }

  // ---------------------------------------------------------------------------
  // compute_version

  /** The two renderings of one clock reading. */
  datatype Version = Version(version: string, deltaTimestamp: string)

  /**
    `compute_version`: `datetime.now()` rendered as the data-asset version `%Y%m%d%H%M%S` and as
    the Delta Lake timestamp `%Y-%m-%dT%H:%M:%SZ`.
   */
  function ComputeVersion(now: DateTime): (v: Version)
    requires Valid(now)
    ensures |v.version| == 14 && AllDigits(v.version)
    ensures 'T' in v.deltaTimestamp && 'Z' in v.deltaTimestamp
    ensures Without(v.deltaTimestamp, {'-', 'T', ':', 'Z'}) == v.version
    ensures ParseCompactStamp(v.version) == Some(now)
  {
    var v := Version(CompactStamp(now), IsoStamp(now));
    assert v.deltaTimestamp[10] == 'T' && v.deltaTimestamp[19] == 'Z';
    IsoStampWithoutSeparators(now);
    CompactStampRoundTrip(now);
    v
  }

  /** Later readings give versions that sort later as text, so the newest data asset sorts last. */
  lemma ComputeVersionOrder(a: DateTime, b: DateTime)
    requires Valid(a) && Valid(b)
    ensures LexLess(ComputeVersion(a).version, ComputeVersion(b).version) <==> Before(a, b)
  {
    CompactStampOrder(a, b);
  }

  // ---------------------------------------------------------------------------
  // featurize

  /** What one run of the stage sends out: the registration, then the published task value. */
  datatype StageRun = StageRun(registration: Registration, publishedVersion: string)

  /**
    `featurize`, with the clock reading as a parameter and the workspace calls as data. Only the
    configuration can make it fail: the registration always finds its parameters.
   */
  function Featurize(config: ConfigValue, now: DateTime): (r: Result<StageRun, ConfigError>)
    requires Valid(now)
    ensures r.Success? <==> HasParameters(config)
    ensures r.Success? ==>
              && r.value.publishedVersion == ComputeVersion(now).version
              && r.value.registration.mltable.version == r.value.publishedVersion
              && r.value.registration.uri.version == r.value.publishedVersion
              && r.value.registration.timestampAsOf == ComputeVersion(now).deltaTimestamp
    ensures r.Failure? ==> r == Failure(LoadParameters(config).error)
  {
    match LoadParameters(config)
    case Failure(e) => Failure(e)
    case Success(parameters) =>
      var v := ComputeVersion(now);
      LoadedParametersSuffice(config, parameters);
      var rg := NewRegistrator(parameters, v.version, v.deltaTimestamp).value;
      var registration := RegisterDataset(rg).value;
      Success(StageRun(registration, v.version))
  }

  /**
    The dictionary `load_parameters` returns holds every key `DataAssetRegistrator` reads, so
    neither its constructor nor `register_dataset` raises `KeyError`.
   */
  lemma LoadedParametersSuffice(config: ConfigValue, parameters: map<string, string>)
    requires LoadParameters(config) == Success(parameters)
    ensures forall version, deltaTimestamp ::
              var rg := NewRegistrator(parameters, version, deltaTimestamp);
              rg.Success? && RegisterDataset(rg.value).Success?
  {
    assert HasRegistrationKeys(parameters);
  }
}
