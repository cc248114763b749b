/**
  `DataAssetRegistrator`: the names and paths under which a new version of the training data
  is registered in the ML workspace. The two registrations themselves (an MLTable read from
  the Delta table as of `delta_timestamp`, and a URI folder) are returned as a plan rather
  than sent to the workspace.
 */
module DataAssetRegistrator {
  import opened Results
  import opened Text

  /** KeyError on the stage's parameter dictionary. */
  datatype RegistrationError = MissingParameter(key: string)

  // ---------------------------------------------------------------------------
  // names

  /**
    `container_path.replace("/", "-").lstrip("-").rstrip("-")`: the path with its slashes made
    dashes and the dashes at either end removed.
   */
  function PathAssetName(containerPath: string): (r: string)
    ensures |r| <= |containerPath|
    ensures '/' !in r
    ensures |r| > 0 ==> r[0] != '-' && r[|r| - 1] != '-'
  {
    TrimmedKeeps(containerPath);
    TrimEnd(TrimStart(ReplaceChar(containerPath, '/', '-'), '-'), '-')
  }

  /** Where the asset name starts inside the path: the length of the leading run of `/` and `-`. */
  function NameStart(containerPath: string): nat {
    var dashed := ReplaceChar(containerPath, '/', '-');
    |dashed| - |TrimStart(dashed, '-')|
  }

  /**
    Every character the asset name keeps is the path's own character at that place, with `/`
    read as `-`.
   */
  lemma PathAssetNameKeeps(containerPath: string)
    ensures var r := PathAssetName(containerPath);
            var i := NameStart(containerPath);
            && i + |r| <= |containerPath|
            && forall k | 0 <= k < |r| :: r[k] == (if containerPath[i + k] == '/' then '-' else containerPath[i + k])
  {
    TrimmedKeeps(containerPath);
  }

  /** PathAssetNameKeeps stated on the trimming itself, so that PathAssetName can use it. */
  lemma TrimmedKeeps(containerPath: string)
    ensures var r := TrimEnd(TrimStart(ReplaceChar(containerPath, '/', '-'), '-'), '-');
            var i := NameStart(containerPath);
            && i + |r| <= |containerPath|
            && forall k | 0 <= k < |r| :: r[k] == (if containerPath[i + k] == '/' then '-' else containerPath[i + k])
  {
    var dashed := ReplaceChar(containerPath, '/', '-');
    var r := TrimEnd(TrimStart(dashed, '-'), '-');
    var i := NameStart(containerPath);
    TrimBothIsSlice(dashed, '-');
    forall k | 0 <= k < |r|
      ensures r[k] == (if containerPath[i + k] == '/' then '-' else containerPath[i + k])
    {
      assert r[k] == dashed[i + k];
    }
  }

  /** Everything the asset name cuts from either end of the path is a `/` or a `-`. */
  lemma PathAssetNameCuts(containerPath: string)
    ensures var r := PathAssetName(containerPath);
            var i := NameStart(containerPath);
            && i + |r| <= |containerPath|
            && (forall k | 0 <= k < i :: containerPath[k] in "/-")
            && (forall k | i + |r| <= k < |containerPath| :: containerPath[k] in "/-")
  {
    var dashed := ReplaceChar(containerPath, '/', '-');
    var r := PathAssetName(containerPath);
    var i := NameStart(containerPath);
    TrimBothIsSlice(dashed, '-');
    forall k | 0 <= k < i
      ensures containerPath[k] in "/-"
    {
      assert dashed[k] == '-';
    }
    forall k | i + |r| <= k < |containerPath|
      ensures containerPath[k] in "/-"
    {
      assert dashed[k] == '-';
    }
  }

  /** Trimming both ends leaves a slice of the input, and everything after the slice is `c`. */
  lemma {:induction false} TrimBothIsSlice(s: string, c: char)
    ensures var t := TrimStart(s, c);
            var r := TrimEnd(t, c);
            var i := |s| - |t|;
            && i + |r| <= |s|
            && (forall k | 0 <= k < |r| :: r[k] == s[i + k])
            && (forall k | i + |r| <= k < |s| :: s[k] == c)
  {
    var t := TrimStart(s, c);
    var r := TrimEnd(t, c);
    var i := |s| - |t|;
    forall k | 0 <= k < |r|
      ensures r[k] == s[i + k]
    {
      assert r[k] == t[k];
    }
    forall k | i + |r| <= k < |s|
      ensures s[k] == c
    {
      assert s[k] == t[k - i];
    }
  }

  /** Sanitising an already sanitised name changes nothing. */
  lemma PathAssetNameIdempotent(containerPath: string)
    ensures PathAssetName(PathAssetName(containerPath)) == PathAssetName(containerPath)
  {
    var r := PathAssetName(containerPath);
    assert ReplaceChar(r, '/', '-') == r;
    assert TrimStart(r, '-') == r;
    assert TrimEnd(r, '-') == r;
  }

  /** Slashes around and inside the path: "/leading/middle/trailing/" gives "leading-middle-trailing". */
  lemma PathAssetNameExample()
    ensures PathAssetName("/leading/middle/trailing/") == "leading-middle-trailing"
  {
    var path := "/leading/middle/trailing/";
    ExampleDashes();
    ExampleTrimStart();
    ExampleTrimEnd();
    assert PathAssetName(path) == TrimEnd(TrimStart(ReplaceChar(path, '/', '-'), '-'), '-');
  }

  lemma ExampleDashes()
    ensures ReplaceChar("/leading/middle/trailing/", '/', '-') == "-leading-middle-trailing-"
  {
  }

  lemma ExampleTrimStart()
    ensures TrimStart("-leading-middle-trailing-", '-') == "leading-middle-trailing-"
  {
    LeadingDash("-leading-middle-trailing-", "leading-middle-trailing-");
  }

  lemma LeadingDash(dashed: string, rest: string)
    requires dashed == "-leading-middle-trailing-" && rest == "leading-middle-trailing-"
    ensures TrimStart(dashed, '-') == rest
  {
    assert dashed[1..] == rest;
    assert LeadingRun(rest, '-') == 0;
  }

  lemma ExampleTrimEnd()
    ensures TrimEnd("leading-middle-trailing-", '-') == "leading-middle-trailing"
  {
    var t := "leading-middle-trailing-";
    assert TrailingRun(t, '-') == 1 by {
      var u := t[..|t| - 1];
      assert u[|u| - 1] == 'g';
      assert TrailingRun(u, '-') == 0;
    }
    assert t[..|t| - 1] == "leading-middle-trailing";
  }

  /** A path without outer slashes keeps all its characters: "data/training/path" gives "data-training-path". */
  lemma PathAssetNameInnerExample()
    ensures PathAssetName("data/training/path") == "data-training-path"
  {
    InnerDashes();
    InnerTrims("data-training-path");
  }

  lemma InnerDashes()
    ensures ReplaceChar("data/training/path", '/', '-') == "data-training-path"
  {
  }

  lemma InnerTrims(dashed: string)
    requires dashed == "data-training-path"
    ensures TrimEnd(TrimStart(dashed, '-'), '-') == dashed
  {
    assert LeadingRun(dashed, '-') == 0 && TrailingRun(dashed, '-') == 0;
    assert dashed[0..] == dashed && dashed[..|dashed|] == dashed;
  }

  /** The two asset names computed by the constructor. */
  datatype AssetNames = AssetNames(mltableName: string, dataAssetUri: string)

  /** `mltable_name` and `data_asset_uri`. */
  function NewAssetNames(containerName: string, containerPath: string): AssetNames {
    var stem := containerName + "-" + PathAssetName(containerPath);
    AssetNames(stem + "-mltable", stem + "-uri")
  }

  /**
    Both names start with the container name and the sanitised path and differ only in their
    suffix, so the two assets of one registration never collide.
   */
  lemma AssetNamesShareStem(containerName: string, containerPath: string)
    ensures var names := NewAssetNames(containerName, containerPath);
            var stem := containerName + "-" + PathAssetName(containerPath) + "-";
            && StartsWith(names.mltableName, stem) && names.mltableName[|stem|..] == "mltable"
            && StartsWith(names.dataAssetUri, stem) && names.dataAssetUri[|stem|..] == "uri"
            && names.mltableName != names.dataAssetUri
  {
    StemNames(NewAssetNames(containerName, containerPath), containerName + "-" + PathAssetName(containerPath));
  }

  lemma StemNames(names: AssetNames, base: string)
    requires names == AssetNames(base + "-mltable", base + "-uri")
    ensures && StartsWith(names.mltableName, base + "-") && names.mltableName[|base + "-"|..] == "mltable"
            && StartsWith(names.dataAssetUri, base + "-") && names.dataAssetUri[|base + "-"|..] == "uri"
            && names.mltableName != names.dataAssetUri
  {
    StemThenSuffix(names.mltableName, base, "-mltable", "mltable");
    StemThenSuffix(names.dataAssetUri, base, "-uri", "uri");
    assert |names.mltableName| != |names.dataAssetUri|;
  }

  lemma StemThenSuffix(name: string, base: string, dashed: string, suffix: string)
    requires name == base + dashed && dashed == "-" + suffix
    ensures StartsWith(name, base + "-") && name[|base + "-"|..] == suffix
  {
    assert name == (base + "-") + suffix;
  }

  /** The names the constructor gives for container "container" and path "/leading/middle/trailing/". */
  lemma AssetNamesExample()
    ensures NewAssetNames("container", "/leading/middle/trailing/")
            == AssetNames("container-leading-middle-trailing-mltable", "container-leading-middle-trailing-uri")
  {
    PathAssetNameExample();
    AssetNamesFor("container", "/leading/middle/trailing/");
  }

  lemma AssetNamesFor(containerName: string, containerPath: string)
    requires containerName == "container" && PathAssetName(containerPath) == "leading-middle-trailing"
    ensures NewAssetNames(containerName, containerPath)
            == AssetNames("container-leading-middle-trailing-mltable", "container-leading-middle-trailing-uri")
  {
    var stem := containerName + "-" + PathAssetName(containerPath);
    ExampleStem(stem);
  }

  lemma ExampleStem(stem: string)
    requires stem == "container" + "-" + "leading-middle-trailing"
    ensures stem + "-mltable" == "container-leading-middle-trailing-mltable"
    ensures stem + "-uri" == "container-leading-middle-trailing-uri"
  {
    assert stem == "container-leading-middle-trailing";
  }

  /** Distinct container paths may share asset names: a slash and a dash sanitise alike. */
  lemma AssetNamesCanCollide()
    ensures NewAssetNames("c", "a/b") == NewAssetNames("c", "a-b")
  {
    assert ReplaceChar("a/b", '/', '-') == "a-b";
    assert ReplaceChar("a-b", '/', '-') == "a-b";
  }

  /** `container_name.replace("-", "_")`: every dash becomes an underscore and every other character stays. */
  function DatastoreName(containerName: string): (r: string)
    ensures |r| == |containerName|
    ensures '-' !in r
    ensures forall i | 0 <= i < |r| :: r[i] == if containerName[i] == '-' then '_' else containerName[i]
  {
    ReplaceChar(containerName, '-', '_')
  }

  lemma DatastoreNameIdempotent(containerName: string)
    ensures DatastoreName(DatastoreName(containerName)) == DatastoreName(containerName)
  {
  }

  /** `azml_path_datastore`: the workspace URI of the container path, which is used unsanitised. */
  function DatastorePath(subscriptionId: string, resourceGroup: string, workspace: string,
                         datastore: string, containerPath: string): string
  {
    "azureml://subscriptions/" + subscriptionId + "/resourcegroups/" + resourceGroup
    + "/workspaces/" + workspace + "/datastores/" + datastore + "/paths/" + containerPath
  }

  /**
    Read back on `/`, the URI yields each identifier in its place and then the container path's
    own segments, provided the identifiers hold no slash.
   */
  lemma DatastorePathFields(subscriptionId: string, resourceGroup: string, workspace: string,
                            datastore: string, containerPath: string)
    requires '/' !in subscriptionId && '/' !in resourceGroup && '/' !in workspace && '/' !in datastore
    ensures Split(DatastorePath(subscriptionId, resourceGroup, workspace, datastore, containerPath), '/')
            == ["azureml:", "", "subscriptions", subscriptionId, "resourcegroups", resourceGroup,
                "workspaces", workspace, "datastores", datastore, "paths"] + Split(containerPath, '/')
  {
    var path := DatastorePath(subscriptionId, resourceGroup, workspace, datastore, containerPath);
    var tail := "/datastores/" + datastore + "/paths/" + containerPath;
    var middle := "/resourcegroups/" + resourceGroup + "/workspaces/" + workspace + tail;
    PathAfterSubscription(path, subscriptionId, resourceGroup, workspace, datastore, containerPath, middle, tail);
    SplitHead(subscriptionId, middle);
    SplitMiddle(resourceGroup, workspace, tail);
    SplitTail(datastore, containerPath);
    ConcatFields(Split(path, '/'), Split(middle[1..], '/'), Split(tail[1..], '/'), Split(containerPath, '/'),
                 subscriptionId, resourceGroup, workspace, datastore);
  }

  lemma PathAfterSubscription(path: string, subscriptionId: string, resourceGroup: string, workspace: string,
                              datastore: string, containerPath: string, middle: string, tail: string)
    requires path == DatastorePath(subscriptionId, resourceGroup, workspace, datastore, containerPath)
    requires tail == "/datastores/" + datastore + "/paths/" + containerPath
    requires middle == "/resourcegroups/" + resourceGroup + "/workspaces/" + workspace + tail
    ensures path == "azureml://subscriptions/" + subscriptionId + middle
  {
  }

  lemma ConcatFields(all: seq<string>, afterHead: seq<string>, afterMiddle: seq<string>, rest: seq<string>,
                     subscriptionId: string, resourceGroup: string, workspace: string, datastore: string)
    requires all == ["azureml:", "", "subscriptions", subscriptionId] + afterHead
    requires afterHead == ["resourcegroups", resourceGroup, "workspaces", workspace] + afterMiddle
    requires afterMiddle == ["datastores", datastore, "paths"] + rest
    ensures all == ["azureml:", "", "subscriptions", subscriptionId, "resourcegroups", resourceGroup,
                    "workspaces", workspace, "datastores", datastore, "paths"] + rest
  {
  }

  lemma SplitHead(subscriptionId: string, middle: string)
    requires '/' !in subscriptionId && |middle| > 0 && middle[0] == '/'
    ensures Split("azureml://subscriptions/" + subscriptionId + middle, '/')
            == ["azureml:", "", "subscriptions", subscriptionId] + Split(middle[1..], '/')
  {
    var s := "azureml://subscriptions/" + subscriptionId + middle;
    HeadShape(s, subscriptionId, middle);
    SplitFourFields(s, "azureml:", "", "subscriptions", subscriptionId, middle[1..], '/');
  }

  lemma HeadShape(s: string, subscriptionId: string, middle: string)
    requires |middle| > 0 && middle[0] == '/'
    requires s == "azureml://subscriptions/" + subscriptionId + middle
    ensures s == "azureml:" + ['/'] + ("" + ['/'] + ("subscriptions" + ['/'] + (subscriptionId + ['/'] + middle[1..])))
  {
    assert middle == ['/'] + middle[1..];
  }

  lemma SplitMiddle(resourceGroup: string, workspace: string, tail: string)
    requires '/' !in resourceGroup && '/' !in workspace && |tail| > 0 && tail[0] == '/'
    ensures Split(("/resourcegroups/" + resourceGroup + "/workspaces/" + workspace + tail)[1..], '/')
            == ["resourcegroups", resourceGroup, "workspaces", workspace] + Split(tail[1..], '/')
  {
    var s := ("/resourcegroups/" + resourceGroup + "/workspaces/" + workspace + tail)[1..];
    MiddleShape(s, resourceGroup, workspace, tail);
    SplitFourFields(s, "resourcegroups", resourceGroup, "workspaces", workspace, tail[1..], '/');
  }

  lemma MiddleShape(s: string, resourceGroup: string, workspace: string, tail: string)
    requires |tail| > 0 && tail[0] == '/'
    requires s == ("/resourcegroups/" + resourceGroup + "/workspaces/" + workspace + tail)[1..]
    ensures s == "resourcegroups" + ['/'] + (resourceGroup + ['/'] + ("workspaces" + ['/'] + (workspace + ['/'] + tail[1..])))
  {
    var w := workspace + ['/'] + tail[1..];
    assert workspace + tail == w by {
      assert tail == ['/'] + tail[1..];
    }
    MiddleSlice(s, resourceGroup, workspace + tail);
  }

  lemma MiddleSlice(s: string, resourceGroup: string, w: string)
    requires s == ("/resourcegroups/" + resourceGroup + "/workspaces/" + w)[1..]
    ensures s == "resourcegroups" + ['/'] + (resourceGroup + ['/'] + ("workspaces" + ['/'] + w))
  {
  }

  lemma SplitTail(datastore: string, containerPath: string)
    requires '/' !in datastore
    ensures Split(("/datastores/" + datastore + "/paths/" + containerPath)[1..], '/')
            == ["datastores", datastore, "paths"] + Split(containerPath, '/')
  {
    var s := ("/datastores/" + datastore + "/paths/" + containerPath)[1..];
    TailShape(s, datastore, containerPath);
    SplitThreeFields(s, "datastores", datastore, "paths", containerPath, '/');
  }

  lemma TailShape(s: string, datastore: string, containerPath: string)
    requires s == ("/datastores/" + datastore + "/paths/" + containerPath)[1..]
    ensures s == "datastores" + ['/'] + (datastore + ['/'] + ("paths" + ['/'] + containerPath))
  {
  }

  /** Three separator-free fields in front of `rest` are the first three fields of the split. */
  lemma SplitThreeFields(s: string, a: string, b: string, c: string, rest: string, sep: char)
    requires sep !in a && sep !in b && sep !in c
    requires s == a + [sep] + (b + [sep] + (c + [sep] + rest))
    ensures Split(s, sep) == [a, b, c] + Split(rest, sep)
  {
    var t2 := c + [sep] + rest;
    var t1 := b + [sep] + t2;
    SplitAtFirstSeparator(a, sep, t1);
    SplitAtFirstSeparator(b, sep, t2);
    SplitAtFirstSeparator(c, sep, rest);
    PrependFields(Split(s, sep), Split(t1, sep), Split(t2, sep), Split(rest, sep), a, b, c);
  }

  lemma SplitFourFields(s: string, a: string, b: string, c: string, d: string, rest: string, sep: char)
    requires sep !in a && sep !in b && sep !in c && sep !in d
    requires s == a + [sep] + (b + [sep] + (c + [sep] + (d + [sep] + rest)))
    ensures Split(s, sep) == [a, b, c, d] + Split(rest, sep)
  {
    var t1 := b + [sep] + (c + [sep] + (d + [sep] + rest));
    SplitAtFirstSeparator(a, sep, t1);
    SplitThreeFields(t1, b, c, d, rest, sep);
    assert [a] + ([b, c, d] + Split(rest, sep)) == [a, b, c, d] + Split(rest, sep);
  }

  lemma PrependFields(all: seq<string>, x: seq<string>, y: seq<string>, rest: seq<string>, a: string, b: string, c: string)
    requires all == [a] + x && x == [b] + y && y == [c] + rest
    ensures all == [a, b, c] + rest
  {
  }

  // ---------------------------------------------------------------------------
  // registration

  /** `parameters[key]`. */
  function Lookup(parameters: map<string, string>, key: string): (r: Result<string, RegistrationError>)
    ensures r.Success? <==> key in parameters
    ensures r.Success? ==> r.value == parameters[key]
    ensures r.Failure? ==> r.error == MissingParameter(key)
  {
    if key in parameters then Success(parameters[key]) else Failure(MissingParameter(key))
  }

  /** What the constructor stores. */
  datatype Registrator = Registrator(
    parameters: map<string, string>,
    version: string,
    deltaTimestamp: string,
    names: AssetNames)

  /** `__init__`: reads `container_path`, then `container_name`. */
  function NewRegistrator(parameters: map<string, string>, version: string, deltaTimestamp: string)
    : (r: Result<Registrator, RegistrationError>)
    ensures r.Success? <==> "container_path" in parameters && "container_name" in parameters
    ensures r.Failure? && "container_path" !in parameters ==> r.error == MissingParameter("container_path")
    ensures r.Success? ==>
              && r.value.parameters == parameters
              && r.value.version == version
              && r.value.deltaTimestamp == deltaTimestamp
              && r.value.names == NewAssetNames(parameters["container_name"], parameters["container_path"])
  {
    var containerPath :- Lookup(parameters, "container_path");
    var containerName :- Lookup(parameters, "container_name");
    Success(Registrator(parameters, version, deltaTimestamp, NewAssetNames(containerName, containerPath)))
  }

  /** The datastore `register_dataset` creates or updates. */
  datatype Datastore = Datastore(name: string, accountName: string, filesystem: string)

  datatype AssetKind = MlTable | UriFolder

  /** A `Data` asset version as submitted to the workspace. */
  datatype DataAssetVersion = DataAssetVersion(name: string, path: string, kind: AssetKind, version: string)

  /** Everything `register_dataset` sends, in order. */
  datatype Registration = Registration(
    datastore: Datastore,
    deltaTablePath: string,    // read by `mltable.from_delta_lake`
    timestampAsOf: string,     // its time-travel timestamp
    mltable: DataAssetVersion,
    uri: DataAssetVersion)

  /** The six parameters `register_dataset` reads. */
  predicate HasRegistrationKeys(parameters: map<string, string>) {
    && "container_name" in parameters
    && "storage_account_name" in parameters
    && "subscription_id" in parameters
    && "resource_group" in parameters
    && "ml_workspace_name" in parameters
    && "container_path" in parameters
  }

  /** The parameters in the order `register_dataset` first subscripts them. */
  const RegistrationKeys: seq<string> :=
    ["container_name", "storage_account_name", "subscription_id", "resource_group", "ml_workspace_name", "container_path"]

  /** `key` is the `i`-th parameter read, it is missing, and every one read before it is present. */
  predicate MissingFirstAt(parameters: map<string, string>, i: int, key: string) {
    && 0 <= i < |RegistrationKeys|
    && key == RegistrationKeys[i]
    && key !in parameters
    && forall j | 0 <= j < i :: RegistrationKeys[j] in parameters
  }

  /** `register_dataset` with `register_mltable` and `register_uri_data_asset`. */
  function RegisterDataset(rg: Registrator): (r: Result<Registration, RegistrationError>)
    ensures r.Success? <==> HasRegistrationKeys(rg.parameters)
    // the `KeyError` is raised by the first subscript whose key is missing
    ensures r.Failure? ==> exists i :: MissingFirstAt(rg.parameters, i, r.error.key)
    ensures r.Success? ==>
              && r.value.mltable.version == rg.version
              && r.value.uri.version == rg.version
              && r.value.mltable.name == rg.names.mltableName
              && r.value.uri.name == rg.names.dataAssetUri
              && r.value.mltable.path == "./" + rg.names.mltableName
              && r.value.uri.path == r.value.deltaTablePath
              && r.value.timestampAsOf == rg.deltaTimestamp
              && r.value.datastore.name == DatastoreName(rg.parameters["container_name"])
              && r.value.datastore.filesystem == rg.parameters["container_name"]
              && r.value.datastore.accountName == rg.parameters["storage_account_name"]
              && r.value.mltable.kind == MlTable
              && r.value.uri.kind == UriFolder
              && r.value.deltaTablePath ==
                   DatastorePath(rg.parameters["subscription_id"], rg.parameters["resource_group"],
                                 rg.parameters["ml_workspace_name"], DatastoreName(rg.parameters["container_name"]),
                                 rg.parameters["container_path"])
  {
    var p := rg.parameters;
    if "container_name" !in p then assert MissingFirstAt(p, 0, "container_name"); Failure(MissingParameter("container_name"))
    else if "storage_account_name" !in p then
      assert MissingFirstAt(p, 1, "storage_account_name"); Failure(MissingParameter("storage_account_name"))
    else if "subscription_id" !in p then
      assert MissingFirstAt(p, 2, "subscription_id"); Failure(MissingParameter("subscription_id"))
    else if "resource_group" !in p then
      assert MissingFirstAt(p, 3, "resource_group"); Failure(MissingParameter("resource_group"))
    else if "ml_workspace_name" !in p then
      assert MissingFirstAt(p, 4, "ml_workspace_name"); Failure(MissingParameter("ml_workspace_name"))
    else if "container_path" !in p then
      assert MissingFirstAt(p, 5, "container_path"); Failure(MissingParameter("container_path"))
    else
    var containerName := p["container_name"];
    var datastore := Datastore(DatastoreName(containerName), p["storage_account_name"], containerName);
    var subscriptionId := p["subscription_id"];
    var resourceGroup := p["resource_group"];
    var workspace := p["ml_workspace_name"];
    var containerPath := p["container_path"];
    var path := DatastorePath(subscriptionId, resourceGroup, workspace, datastore.name, containerPath);
    Success(Registration(
      datastore,
      path,
      rg.deltaTimestamp,
      DataAssetVersion(rg.names.mltableName, "./" + rg.names.mltableName, MlTable, rg.version),
      DataAssetVersion(rg.names.dataAssetUri, path, UriFolder, rg.version)))
  }
}
