# Drift retraining core, modelled in Dafny

Drift retrains machine-learning models when their training data changes. Two pipeline stages
are modelled here.

- **Data registration.** `DatasetRegistrator` reads six text parameters from the job
  configuration. It stamps a version from the current time. `DataAssetRegistrator` then
  derives the asset names, the datastore name and the `azureml://` URI under which the new
  data version is registered.
- **Model retraining.** `ModelRetrainer` lists the historical training jobs. It keeps those
  whose display name matches `^<group>_[0-9]{14}_.*$` and whose monitored inputs point at the
  monitored data. It then keeps the newest job per group (`JobGroup.is_older_than`). Each kept
  job is resubmitted against the new data version under a fresh display name.
  `TrainingStatusRefresher` polls the new jobs until none is left that has not failed, or
  until a deadline passes.

The platform client, the wall clock and the random source are parameters (oracles):

- `fetch(name, n)` is the record `jobs.get` returns on the `n`-th status request.
- `clock(i)` is the `i`-th clock reading in microseconds. It strictly increases, which bounds
  the polling loop.
- `now(i)` is the reading for the `i`-th new display name.
- `pick(n)` is the `n`-th random draw.
- `create(job, i)` is the record returned for the `i`-th submission.
- `ml_client.jobs.list()` is a plain sequence argument.

The modules follow the program's files:

| module | file |
|---|---|
| `JobNamePatterns`, `GroupSelection`, `ModelRetrainer`, `ModelRetrainerScenarios` | `model_retrainer.py` |
| `JobGroups` | `job_group.py` |
| `TrainingStatusRefresher`, `TrainingStatusScenarios` | `training_status_refresher.py` |
| `DataAssetRegistrator` | `data_asset_registrator.py` |
| `DatasetRegistrator` | `dataset_registrator.py` |

Shared helpers:

- `Text`: Python's `str.replace`, `lstrip`, `rstrip`, `re.split` on one character, `startswith` and `<` on `str`.
- `DateTimes`: the two `strftime` formats.
- `JobConfig`: configuration lookup and `int()`.
- `Jobs`: the job record.
- `Sequences`: order-preserving filter.
- `Results`: `Option`, `Result` and `Outcome`.

Python exceptions are error values:

- `KeyError` on a missing configuration key or job input.
- `ValueError` from `int()` or from `time.sleep` with a negative delay.
- "No jobs in scope to retrain.", "Some jobs failed." and "Timeout reached".

`re.match` is modelled by what it accepts on the two pattern shapes the program builds.
`NameMatches` holds when some split of the name gives a group part the group pattern accepts,
then `_`, 14 digits, `_`, and a tail without a line feed except as its last character (`$`
also matches before a final line feed). Each configured prefix alternative is a literal
string. `MatchedNameFields` and `NameMatchesFromFields` connect the two views. A name the
pattern accepts splits on `_` into the group, a 14-digit stamp and the tail's fields, and
conversely.

The grouping loop of `retrieve_jobs_to_retrain` is a fold, `SelectNewest`. It is proved
against an independent description, `IsSelectionOf`:

- distinct group names;
- every stored group is built from one of the in-scope jobs;
- every in-scope job's group is present;
- no in-scope job of a group is strictly newer than the stored one;
- among jobs with the stored timestamp, the stored one comes first.

The dictionary keeps insertion order, and a replaced key keeps its place, so the groups form
a sequence. Training timestamps are the display name's second field and are compared as text,
as the program does, although `JobGroup` annotates them as `int`. `IsOlderThanIsNumeric`
shows that on 14-digit stamps the text order is the numeric order.
`DateTimes.CompactStampOrder` shows that it is also the chronological order.

## Model

| member | source | states |
|---|---|---|
| Text.TrimStart | src/drift/registrating/data_asset_registrator.py:36 | `lstrip("-")` removes exactly the leading run of the character. The result is a suffix of the input, every removed character is that character, and the result does not start with it. |
| Text.TrimEnd | src/drift/registrating/data_asset_registrator.py:36 | `rstrip("-")` removes exactly the trailing run: the result is a prefix, every removed character is that character, and the result does not end with it. |
| Text.LeadingRun | src/drift/registrating/data_asset_registrator.py:36 | The characters `lstrip` removes: a run of the character at the front, followed by the end of the string or another character. |
| Text.TrailingRun | src/drift/registrating/data_asset_registrator.py:36 | The characters `rstrip` removes: a run of the character at the back, preceded by the start of the string or another character. |
| Text.Split | src/drift/retraining/model_retrainer.py:145 | `re.split("_", s)` yields at least one field, and no field contains the separator. |
| Text.JoinSplitIsReplace | src/drift/retraining/model_retrainer.py:51 | Replacing every `,` by `\|` gives the comma-separated alternatives joined by `\|`. |
| Text.JoinSplitRoundTrip | src/drift/retraining/model_retrainer.py:145 | Joining the `_`-split fields with `_` gives back the display name. |
| Text.SplitAtFirstSeparator | src/drift/retraining/model_retrainer.py:145-147 | A field without the separator, then the separator, then a rest, splits into that field followed by the rest's fields. |
| Text.SplitHasTwoFields | src/drift/retraining/model_retrainer.py:145-147 | A name containing `_` splits into at least two fields, so `names[1]` exists. |
| Text.LexLessIrreflexive | src/drift/retraining/job_group.py:19 | No string is `<` itself. |
| Text.LexLessAsymmetric | src/drift/retraining/job_group.py:19 | `a < b` excludes `b < a` on `str`. |
| Text.LexLessTransitive | src/drift/retraining/job_group.py:19 | `<` on `str` is transitive. |
| Text.LexLessTotal | src/drift/retraining/job_group.py:19 | Of two different strings one is `<` the other. |
| Text.LexLessIsNumericLess | src/drift/retraining/job_group.py:19 | On digit strings of equal length, `str` order is the order of their decimal values. |
| DateTimes.CompactStamp | src/drift/registrating/dataset_registrator.py:75 | `%Y%m%d%H%M%S` renders a valid reading as 14 digits. |
| DateTimes.IsoStamp | src/drift/registrating/dataset_registrator.py:74 | `%Y-%m-%dT%H:%M:%SZ` renders 20 characters, with `T` at 10, `Z` at 19 and the separators in place. |
| DateTimes.CompactStampRoundTrip | src/drift/registrating/dataset_registrator.py:75 | The 14-digit stamp reads back to the reading it was made from. |
| DateTimes.IsoStampWithoutSeparators | src/drift/registrating/dataset_registrator.py:73-75 | Deleting `-`, `T`, `:` and `Z` from the Delta timestamp gives the version string of the same reading. |
| DateTimes.CompactStampOrder | src/drift/retraining/model_retrainer.py:114 | One stamp sorts before another as text exactly when its reading is chronologically earlier. |
| JobConfig.Get | src/drift/retraining/training_status_refresher.py:17-18 | A subscript succeeds exactly on a mapping holding the key and then yields its value. A missing key is `KeyError`. |
| JobConfig.ParseShowRoundTrip | src/drift/retraining/training_status_refresher.py:17-18 | `int()` reads back every integer's decimal text. |
| Sequences.Keep | src/drift/retraining/model_retrainer.py:140 | `filter` keeps exactly the elements satisfying the predicate, in order, as a subsequence of the input. |
| Sequences.KeepCounts | src/drift/retraining/model_retrainer.py:140 | A kept value occurs in the result as often as in the input; any other value does not occur. |
| JobGroups.IsOlderThanIrreflexive | src/drift/retraining/job_group.py:18-19 | A group is never older than its own timestamp. |
| JobGroups.IsOlderThanAsymmetric | src/drift/retraining/job_group.py:18-19 | Of two groups at most one is older than the other's timestamp. |
| JobGroups.IsOlderThanTransitive | src/drift/retraining/job_group.py:18-19 | "Older than" is transitive across groups. |
| JobGroups.IsOlderThanIsNumeric | src/drift/retraining/job_group.py:19 | On 14-digit timestamps, "older" means a numerically smaller stamp. |
| JobNamePatterns.ComputeJobNamePattern | src/drift/retraining/model_retrainer.py:49-55 | Without a prefix the pattern is `^[a-z,0-9]{2,}_[0-9]{14}_.*$`. With one, it is the prefix's comma-separated alternatives joined by `\|`, in parentheses, then `_[0-9]{14}_.*$`. |
| JobNamePatterns.ComputeJobNamePatternExample | tests/test_model_retrainer.py:19-22 | The prefix `modelA,modelB` gives `^(modelA\|modelB)_[0-9]{14}_.*$`. |
| JobNamePatterns.GroupPatternOf | src/drift/retraining/model_retrainer.py:49-53 | No prefix selects the default class; a prefix selects exactly its comma-separated alternatives. |
| JobNamePatterns.GroupMatchHasNoUnderscore | src/drift/retraining/model_retrainer.py:49 | The default class `[a-z,0-9]` excludes `_`, so a matched group part never contains one. |
| JobNamePatterns.SplitDisplayName | src/drift/retraining/model_retrainer.py:145-147 | `group_stamp_tail` splits into group, stamp and the tail's fields. |
| JobNamePatterns.MatchedNameFields | src/drift/retraining/model_retrainer.py:145-147 | A name the pattern accepts splits into at least three fields. The first is accepted by the group pattern, the second is 14 digits, and the rest joined is a valid tail. |
| JobNamePatterns.NameMatchesFromFields | src/drift/retraining/model_retrainer.py:55 | Conversely, such fields joined by `_` form a name the pattern accepts. |
| JobNamePatterns.NameMatchesFromParts | src/drift/retraining/model_retrainer.py:55 | An accepted group part, `_`, 14 digits, `_` and a valid tail form a name the pattern accepts. |
| JobNamePatterns.MatchedNameHasTwoFields | src/drift/retraining/model_retrainer.py:145-147 | Every accepted name has a first and a second field, even with `_` inside alternatives. |
| JobNamePatterns.NameMatchesExample | tests/test_model_retrainer.py:27-31 | `^model_[0-9]{14}_.*$` accepts `model_20231115120000_abc`. |
| JobNamePatterns.NameMismatchExample | tests/test_model_retrainer.py:33-35 | The same pattern rejects `other_20231115120000_abc`. |
| GroupSelection.FindGroup | src/drift/retraining/model_retrainer.py:149 | `dict.get(group_name)`: an index holding that name, or `None` exactly when no stored group has it. |
| GroupSelection.FindGroupFirst | src/drift/retraining/model_retrainer.py:149-155 | With distinct names, the lookup finds the one group of that name. |
| GroupSelection.SelectNewestSpec | src/drift/retraining/model_retrainer.py:143-157 | The fold gives one group per name, drawn from the jobs, covering every job's group. Each kept timestamp is not older than any job of its group, and on ties the first-listed job is kept. |
| ModelRetrainer.IsDataAssetInScope | src/drift/retraining/model_retrainer.py:178-181 | False when the input is absent; otherwise true exactly when the input path starts with the asset's value. |
| ModelRetrainer.AreDataAssetsInScope | src/drift/retraining/model_retrainer.py:192-196 | True exactly when every configured asset is in scope, so vacuously true for none. |
| ModelRetrainer.IsInScope | src/drift/retraining/model_retrainer.py:207-210 | True exactly when the display name matches and every asset is in scope. An in-scope name has two fields. |
| ModelRetrainer.InScopeJobs | src/drift/retraining/model_retrainer.py:140 | The filtered list holds exactly the in-scope listed jobs, in listing order. |
| ModelRetrainer.RetrieveJobsToRetrain | src/drift/retraining/model_retrainer.py:137-164 | Raises "No jobs in scope" exactly when no listed job is in scope. Otherwise returns a non-empty newest-per-group selection of the in-scope jobs, each a listed in-scope job. |
| ModelRetrainer.NoneInScope | src/drift/retraining/model_retrainer.py:160-162 | The filtered list is empty exactly when no listed job is in scope. |
| ModelRetrainer.SelectedGroupsAreWellFormed | src/drift/retraining/model_retrainer.py:145-153 | With alternatives free of `_`, every kept group name is one the group pattern accepts, and every kept timestamp is 14 digits. |
| ModelRetrainer.LastValueFromFront | src/drift/retraining/model_retrainer.py:124-126 | Assigning in configuration order, a later asset of the same name overrides an earlier one. |
| ModelRetrainer.LastValueOfDistinct | src/drift/retraining/model_retrainer.py:124-126 | With distinct names, each input ends with its own asset's value. |
| ModelRetrainer.UpdateDataAssets | src/drift/retraining/model_retrainer.py:124-126 | Succeeds exactly when the job has every configured input. It then changes only the inputs and keeps their names; otherwise `KeyError` names an absent input. |
| ModelRetrainer.UpdateInput | src/drift/retraining/model_retrainer.py:126 | One assignment changes only the inputs and keeps their names. |
| ModelRetrainer.UpdateDataAssetsMissing | src/drift/retraining/model_retrainer.py:124-126 | The `KeyError` names the first configured input the job lacks. |
| ModelRetrainer.UpdateDataAssetsPaths | src/drift/retraining/model_retrainer.py:124-126 | Afterwards, each input points at `value:version` of the last asset naming it. Inputs no asset names are untouched. |
| ModelRetrainer.AlphabetChar | src/drift/retraining/model_retrainer.py:111 | Every character of `ascii_letters + digits` is alphanumeric. |
| ModelRetrainer.RandomSuffix | src/drift/retraining/model_retrainer.py:111 | The suffix has 6 characters, each drawn from the 62-letter alphabet by its own draw. |
| ModelRetrainer.NewDisplayNameMatches | src/drift/retraining/model_retrainer.py:111-114 | A new display name matches every pattern its group matches. Without `_` in alternatives it splits back into the group, the 14-digit time and the suffix. |
| ModelRetrainer.Resubmission | src/drift/retraining/model_retrainer.py:76-79 | Succeeds exactly when the job has every input. The resubmitted job then has no name, keeps status, definition and input names, points each input at `value:version` of the last data asset naming it (others untouched), and carries the new display name `group_<YYYYmmddHHMMSS>_<suffix>`. |
| ModelRetrainer.ResubmissionStaysInScope | src/drift/retraining/model_retrainer.py:76-79 | With distinct asset names and alternatives free of `_`, a resubmitted in-scope job is in scope again for the next run. |
| ModelRetrainer.UpdatedAssetsInScope | src/drift/retraining/model_retrainer.py:124-126 | With distinct asset names, every asset is in scope after the update. |
| ModelRetrainer.RetrainModels | src/drift/retraining/model_retrainer.py:68-87 | Succeeds exactly when every group's job has every input. Then one job is created per group, in order, each the `i`-th resubmission with its own time and draws. |
| ModelRetrainer.DisplayNames | src/drift/retraining/model_retrainer.py:97-98 | The logged names are the failed jobs' display names, one per job, in order. |
| ModelRetrainer.CheckSuccess | src/drift/retraining/model_retrainer.py:95-100 | The only failures are "Some jobs failed" and the refresher's own errors. Every completed polling round was before the deadline and, but the last, still had to wait. It passes exactly when polling stops on time with no job left, and raises "Some jobs failed", listing the left jobs (all `Failed`), exactly when it stops on time with jobs left. "Timeout reached" is raised only when the clock read after the last round is past the deadline; the sleep error exactly when the delay is negative and the first timeout check passed. |
| ModelRetrainerScenarios.AcceptsMatchingJob | tests/test_model_retrainer.py:29-31 | A matching name whose inputs point under the monitored paths is in scope. |
| ModelRetrainerScenarios.RejectsOtherGroup | tests/test_model_retrainer.py:33-35 | A job of another group is out of scope. |
| ModelRetrainerScenarios.RejectsWrongAsset | tests/test_model_retrainer.py:37-40 | A training input outside the monitored path puts the job out of scope. |
| ModelRetrainerScenarios.NothingListed | tests/test_model_retrainer.py:58-64 | An empty listing raises "No jobs in scope to retrain". |
| ModelRetrainerScenarios.PicksNewestPerGroup | tests/test_model_retrainer.py:43-55 | Runs at 12:00 and 13:00 of group `model` select only the 13:00 run. |
| ModelRetrainerScenarios.RetrieveLaterOfTwo | src/drift/retraining/model_retrainer.py:143-157 | Two in-scope runs of one group, the earlier first, select exactly the later one. |
| ModelRetrainerScenarios.NewestOfTwo | src/drift/retraining/model_retrainer.py:149-155 | A selection over two runs of one group holds only the strictly later one. |
| ModelRetrainerScenarios.OnlyOneGroup | src/drift/retraining/model_retrainer.py:143-157 | When all jobs share one group, the selection holds exactly that group. |
| TrainingStatusRefresher.NewRefresherReadsDelays | src/drift/retraining/training_status_refresher.py:17-18 | Both delays are the integers written in the configuration. |
| TrainingStatusRefresher.NewRefresherExample | tests/test_training_status_refresher.py:17-22 | `"3600"` and `"30"` give a timeout of 3600 s and a delay of 30 s. |
| TrainingStatusRefresher.CheckTimeoutReached | src/drift/retraining/training_status_refresher.py:60-61 | Raises "Timeout reached" exactly when now is strictly after the deadline. |
| TrainingStatusRefresher.Fetched | src/drift/retraining/training_status_refresher.py:73-74 | One `jobs.get` per tracked job, in order: the `i`-th record is the answer to request `calls + i` for the `i`-th job's name. |
| TrainingStatusRefresher.RefreshJobStatus | src/drift/retraining/training_status_refresher.py:72-81 | The refreshed list is never longer than the tracked list. |
| TrainingStatusRefresher.RefreshJobStatusIsFilter | src/drift/retraining/training_status_refresher.py:72-81 | The refresh is the fetched records with every `Completed` one removed, in fetch order. |
| TrainingStatusRefresher.RefreshJobStatusKeeps | src/drift/retraining/training_status_refresher.py:72-81 | No kept record is `Completed`, every fetched record that is not `Completed` is kept, and the result is a subsequence of the fetched records. |
| TrainingStatusRefresher.HasToWaitIsAny | src/drift/retraining/training_status_refresher.py:43 | The loop goes on exactly when some tracked job has a status other than `Failed`. |
| TrainingStatusRefresher.PolledNeverGrows | src/drift/retraining/training_status_refresher.py:35-39 | Each iteration polls only what the previous one kept, so the tracked list never grows. |
| TrainingStatusRefresher.WaitTraining | src/drift/retraining/training_status_refresher.py:32-50 | Every completed iteration passed its timeout check and slept, and all but the last still had to wait. A normal return holds the state of the first iteration with nothing but failures. A timeout fires the iteration after the last completed one. A negative delay raises at the first sleep. |
| TrainingStatusScenarios.RefreshDropsCompleted | tests/test_training_status_refresher.py:25-38 | Of a `Completed` and a `Running` record, only the `Running` one is kept. |
| TrainingStatusScenarios.RunningThenCompleted | tests/test_training_status_refresher.py:49-63 | Running, then Completed: two requests, two sleeps, nothing returned. |
| TrainingStatusScenarios.FailsAtOnce | tests/test_training_status_refresher.py:66-75 | A job that is `Failed` at once is returned after one sleep. |
| TrainingStatusScenarios.NothingToWaitFor | src/drift/retraining/training_status_refresher.py:35-50 | An empty list returns `[]` after one iteration and one sleep. |
| TrainingStatusScenarios.DeadlineAlreadyPast | src/drift/retraining/training_status_refresher.py:43-46 | A deadline already past raises at the first check, even after all jobs finished. |
| DataAssetRegistrator.PathAssetName | src/drift/registrating/data_asset_registrator.py:36 | The sanitised path has no `/`, neither starts nor ends with `-`, and is no longer than the path. |
| DataAssetRegistrator.PathAssetNameKeeps | src/drift/registrating/data_asset_registrator.py:36 | Each kept character is the path's own character at that place, with `/` read as `-`. |
| DataAssetRegistrator.PathAssetNameCuts | src/drift/registrating/data_asset_registrator.py:36 | Everything cut from either end of the path is `/` or `-`. |
| DataAssetRegistrator.PathAssetNameIdempotent | src/drift/registrating/data_asset_registrator.py:36 | Sanitising a sanitised name changes nothing. |
| DataAssetRegistrator.PathAssetNameExample | tests/test_data_asset_registrator.py:32-49 | `/leading/middle/trailing/` becomes `leading-middle-trailing`. |
| DataAssetRegistrator.PathAssetNameInnerExample | tests/test_data_asset_registrator.py:7-29 | `data/training/path` becomes `data-training-path`. |
| DataAssetRegistrator.AssetNamesShareStem | src/drift/registrating/data_asset_registrator.py:37-38 | Both asset names are `container-path-` followed by `mltable` or `uri`, so they differ. |
| DataAssetRegistrator.AssetNamesExample | tests/test_data_asset_registrator.py:48-49 | Container `container` and path `/leading/middle/trailing/` give `container-leading-middle-trailing-mltable` and `-uri`. |
| DataAssetRegistrator.AssetNamesCanCollide | src/drift/registrating/data_asset_registrator.py:36-38 | Paths `a/b` and `a-b` give the same asset names. |
| DataAssetRegistrator.DatastoreName | src/drift/registrating/data_asset_registrator.py:45 | Every `-` of the container name becomes `_` and every other character stays, at the same position. |
| DataAssetRegistrator.DatastoreNameIdempotent | src/drift/registrating/data_asset_registrator.py:45 | Renaming twice equals renaming once. |
| DataAssetRegistrator.DatastorePathFields | src/drift/registrating/data_asset_registrator.py:59 | The URI splits on `/` into the fixed words with each identifier in its place, then the unsanitised container path's segments. |
| DataAssetRegistrator.NewRegistrator | src/drift/registrating/data_asset_registrator.py:30-38 | Succeeds exactly when `container_path` and `container_name` are present, reading `container_path` first, and stores the derived names. |
| DataAssetRegistrator.RegisterDataset | src/drift/registrating/data_asset_registrator.py:45-100 | Succeeds exactly when all six keys are present; otherwise the `KeyError` names the first key read that is missing, in subscript order. The datastore has the renamed container, the account name and the container as filesystem. Both assets carry the constructor's version, as `MLTABLE` and `URI_FOLDER`. The URI asset points at the datastore URI; the MLTable is read as of the Delta timestamp and saved at `./<name>`. |
| DatasetRegistrator.LoadParameters | src/drift/registrating/dataset_registrator.py:55-64 | Succeeds exactly when all six configuration entries exist as text. Otherwise it raises the error of the first failing lookup, in evaluation order. |
| DatasetRegistrator.LoadParametersContents | src/drift/registrating/dataset_registrator.py:55-62 | The result has exactly the six keys, each holding the text at its configuration place. |
| DatasetRegistrator.LoadParametersWithoutAzml | src/drift/registrating/dataset_registrator.py:56 | Without an `azml` section the error is `KeyError('azml')`. |
| DatasetRegistrator.LoadParametersExample | tests/test_dataset_registrator.py:20-41 | The test configuration yields the six expected values. |
| DatasetRegistrator.ComputeVersion | src/drift/registrating/dataset_registrator.py:73-77 | The version is 14 digits and reads back to the instant. The Delta timestamp contains `T` and `Z`, and without its separators it equals the version. |
| DatasetRegistrator.ComputeVersionOrder | src/drift/registrating/dataset_registrator.py:75 | Later instants give versions that sort later. |
| DatasetRegistrator.Featurize | src/drift/registrating/dataset_registrator.py:25-33 | Fails only on the configuration. Otherwise the published version equals both assets' version, and the MLTable reads the Delta table as of the same instant. |
| DatasetRegistrator.LoadedParametersSuffice | src/drift/registrating/dataset_registrator.py:25-31 | Loaded parameters always satisfy the registrator: neither its constructor nor `register_dataset` raises `KeyError`. |

## Left out

- Python's `re` engine in general. Only the two pattern shapes the program builds are
  modelled. Prefix alternatives are literal strings, so regex metacharacters in
  `model_name_prefix` are not interpreted.
- Alternatives containing `_`. The grouping and in-scope lemmas require `NoUnderscores`,
  because such a name's first `_`-field is not the alternative that matched.
- `int()` accepts surrounding whitespace, `_` digit separators and non-ASCII digits.
  `JobConfig.ParseInt` takes only an optional sign and ASCII digits.
- Configuration leaves that are not text. `load_parameters` would copy them into the
  dictionary; the model reports them as errors (`NotText`).
- Reading `parameters["dataAssets"]`. The monitored assets are given as a sequence of name and
  value pairs.
- `DateTimes.CompactStamp`: years 1 to 999 are padded to four digits. The platform's
  `strftime` may print them unpadded, which such a year never reaches in practice.
- `DataAssetRegistrator.RegisterDataset`: the datastore `create_or_update` call is a data
  value, not an effect. When a key read after it is missing, the model does not record that
  the datastore was already created.
- `ModelRetrainer.RetrainModels`: the contract speaks only of the successful run. On a
  missing input, jobs already submitted stay submitted; the model returns the error alone.
- `ModelRetrainer.ResubmissionStaysInScope`: requires distinct asset names. With a repeated
  name the last value wins, and an earlier value's prefix need not hold.
- `timedelta` overflow for huge timeouts, and microsecond rounding, are not modelled. The
  deadline is `start + timeout * 10^6` microseconds.
- The Azure ML SDK, `mltable` and Databricks calls become oracles or data:
  `ml_client.jobs.list/get/create_or_update`, `ml_client.data.create_or_update`,
  `mltable.from_delta_lake`, `table.save`, `dbutils.jobs.taskValues.set`.
- `datetime.now()`, `time.sleep` and `random.choices` become oracles. `time.sleep` is
  counted, and a negative delay raises.
- Logging, `__str__`/`__rep__`, `ModelRetrainer.featurize`'s plumbing, and the
  `additionalArgs["vault_name"]` client set-up are left out.
- `src/drift/tools/azml.py` and `src/drift/__main__.py` are not part of this model: secret
  retrieval, credentials, client creation and argument parsing.
