# Configuration-driven record-set pipeline

A Dafny model of the data-preprocessing pipeline in `src/data/dataset.py`.
It covers three transforms over tabular record sets (pandas DataFrames):

- column selection (`ChooseColsTransform`);
- the volume outlier filter (`DeleteOutlierInVolume`);
- row-wise concatenation with an inner or outer column join (`ConcatDataFrames`).

It also covers `DataPipeline`. Its builder turns an ordered list of `{step, params}` entries into a list of transforms, and `apply` runs them left to right.

- `frames.dfy` (module `Frames`): the record-set model.
  - A `Frame` is an ordered column list plus a sequence of `Record`s.
  - Each record is an index label plus a map from column name to `Value`.
  - `Value` is `Num`, `Text` or `NoValue`. `NoValue` is the missing-value marker that an outer join writes.
  - `Data` is `Single(frame) | Many(frames)`, the "one DataFrame or a list of them" input.
  - `Error` lists the exceptions the code raises. Every transform's and `apply`'s error path returns `Result.Err`, and no precondition excludes one. A failed build is recorded in the pipeline's `failure` field (see "## Left out").
- `transforms.dfy` (module `Transforms`): the three transforms as functions.
  - `ApplyTransform` dispatches on list versus single input. `Run` is the left-to-right composition that torchvision's `Compose` performs.
  - Lemmas give order preservation, filter idempotence and row placement in a concatenation.
- `pipeline.dfy` (module `Pipeline`): the step registry (`MakeTransform`) and `Build`, which gives the build loop's outcome as a function of the steps.
  - Class `DataPipeline` has the fields `steps`, `transformations`, `composed` and `failure`.
  - `BuildPipeline` is the loop of `_build_pipeline`, proved against `Build`.
  - `Apply` is the loop that `Compose` runs, proved against `Run`.

Choices made where the code is silent or easy to misread:

- Unregistered step names are skipped silently, as the `if/elif` chain at `dataset.py:150-155` does. The model does not fail fast (`BuildSkipsUnregistered`).
- A volume filter after a column selection that dropped `volume` raises the `KeyError` of `df["volume"]` (`dataset.py:79/83`, `MissingVolume`). The rows are not passed through (`ChooseThenFilterNeedsVolume`).
- A constructor that rejects its keyword arguments raises a bare `TypeError`, which names no step position. `InvalidParams` therefore carries only the step name.
- A volume cell holding `NoValue` compares false, as NaN does, so its row is dropped. A text volume makes the comparison raise `TypeError` (`VolumeNotComparable`).
- `pd.concat` runs these checks in this order:
  1. a single record set is refused (`NotAList`);
  2. then a join other than `inner`/`outer` (`InvalidJoin`);
  3. then an empty list (`NoObjectsToConcatenate`).
- Column order after `pd.concat` with `sort=False`: the first record set's columns come first, then the columns each later record set adds, each name once (`OuterColumnOrder`). The inner join keeps the first record set's columns that every record set has, in that record set's order (`InnerColumnOrder`).
- `torchvision.transforms.Compose` keeps a reference to the `transformations` list, not a copy. So `composed` is a flag, and `Apply` runs the current contents of `transformations`. When `__init__`'s build fails, Python never hands out the object. The model keeps it, with the build's error in `failure` and `composed == false`, and then `Apply` returns `PipelineNotBuilt`.

## Model

| member | source | states |
|---|---|---|
| `Transforms.Absent` | src/data/dataset.py:50 | the columns reported missing are exactly the requested ones that the record set lacks |
| `Transforms.SelectColumns` | src/data/dataset.py:50 | succeeds iff every requested column is present, otherwise a KeyError naming the absent ones; on success the columns are exactly the requested list in the requested order, every row keeps its index label and cell values and has exactly those keys, and the row count is unchanged |
| `Transforms.KeepAtMost` | src/data/dataset.py:83 | no more rows come out than go in; a row is in the output iff it is in the input and its volume is a number not above the threshold |
| `Transforms.FilterVolume` | src/data/dataset.py:83 | KeyError when there is no volume column, TypeError when a volume is text, otherwise the same columns and exactly the surviving rows with their labels |
| `Transforms.KeepAtMostAppend` | src/data/dataset.py:83 | filtering distributes over concatenation, so survivors keep their relative order |
| `Transforms.KeepAtMostCounts` | src/data/dataset.py:83 | each row occurs in the output as often as in the input if it passes, never otherwise (no new rows) |
| `Transforms.KeepAtMostOfKept` | src/data/dataset.py:83 | a row list that passes the filter entirely is left unchanged |
| `Transforms.KeepAtMostIdempotent` | src/data/dataset.py:83 | filtering a row list twice with the same threshold equals filtering once |
| `Transforms.FilterVolumeIdempotent` | src/data/dataset.py:83 | filtering a record set twice with the same threshold succeeds and equals filtering once |
| `Transforms.OnEach` | src/data/dataset.py:45-48 | the list comprehension over a list (also line 79): succeeds iff every element succeeds, then the output has the same length and each element is the transform of the input at the same position; otherwise it raises the error of the first failing element |
| `Frames.Dedup` | src/data/dataset.py:109 | the same names as the input, each once (the each-name-once step of the column join) |
| `Transforms.JoinedColumns` | src/data/dataset.py:109 | no repeated names; inner gives exactly the columns every record set has, outer exactly the columns some record set has |
| `Frames.DedupPrefix` | src/data/dataset.py:109 | keeping first occurrences of a + b begins with those of a, and every later name is absent from a |
| `Transforms.InnerColumnOrder` | src/data/dataset.py:109 | the inner-join columns are the first record set's distinct columns, in its order, kept when every record set has them |
| `Transforms.OuterColumnOrder` | src/data/dataset.py:109 | the outer-join columns begin with the distinct columns of record sets 0..k-1 in order of first appearance, and every later column is absent from all of them |
| `Transforms.Stack` | src/data/dataset.py:109 | the stacked row count is the sum of the input row counts and every row has exactly the result columns |
| `Transforms.ResetIndex` | src/data/dataset.py:110 | labels become 0..n-1 while the columns and every row's cells stay the same |
| `Transforms.Concat` | src/data/dataset.py:108-115 | the error cases (single record set, unsupported join, empty list) and nothing else fail; a result has no repeated columns, row count equal to the sum of the inputs' row counts, labels 0..n-1, and columns equal to the intersection (inner) or union (outer) of the inputs' columns |
| `Transforms.StackAt` | src/data/dataset.py:109 | row i of input k lands at position (rows of inputs 0..k-1) + i, so rows appear in input order |
| `Transforms.ConcatRowAt` | src/data/dataset.py:109-110 | every cell of the result is the source cell where the source record set had the column and NoValue where it did not; with inner join no cell is a gap |
| `Transforms.OuterGaps` | src/data/dataset.py:109 | with outer join a cell is NoValue exactly where its record set lacked the column (or already held NoValue) |
| `Transforms.ApplyTransform` | src/data/dataset.py:32-115 | each transform's call: selection and filter map a single record set to a single one and a list to a list of the same length, element by element; concat returns one record set or its error; outputs are well-formed |
| `Transforms.Run` | src/data/dataset.py:177 | the left-to-right composition keeps data well-formed |
| `Transforms.RunAppend` | src/data/dataset.py:158 | running a + b is running a and then b on its output, and an error stops the run |
| `Transforms.DeleteOutlierIdempotent` | src/data/dataset.py:78-85 | the volume filter is idempotent on a single record set and on a list |
| `Transforms.ChooseThenFilterNeedsVolume` | src/data/dataset.py:83 | selecting columns without volume and then filtering raises the KeyError for volume |
| `Pipeline.MakeTransform` | src/data/dataset.py:150-155 | an unregistered name constructs nothing and raises nothing; a registered name succeeds iff its params are exactly its one keyword with a value of the right kind; the transform built is the one whose name and parameters are the step's; failures raise InvalidParams for that step |
| `Pipeline.MakeTransformInverts` | src/data/dataset.py:150-155 | a transform's own step name and parameters construct that transform |
| `Pipeline.Build` | src/data/dataset.py:146-156 | the build state step by step: registered steps' transforms appended in order, stopping at the first constructor error, with never more transforms than steps (its other properties are in BuildAppend, BuildRegistered and BuildFailure) |
| `Pipeline.BuildAppend` | src/data/dataset.py:146-156 | building a + b is building a and then, unless a failed, building b after it |
| `Pipeline.BuildSkipsUnregistered` | src/data/dataset.py:150-156 | inserting a step with an unregistered name changes neither the transforms nor the outcome |
| `Pipeline.BuildRegistered` | src/data/dataset.py:146-156 | a successful build holds one transform per registered step, in configuration order, each constructed from its step |
| `Pipeline.BuildFailure` | src/data/dataset.py:146-158 | the build fails iff some step fails to construct; the failure is the first such step's error and the transforms are those built before it |
| `Pipeline.UnregisteredStepsAreIdentity` | src/data/dataset.py:146-158 | a configuration without registered steps builds the empty composition, which returns its input unchanged |
| `Pipeline.DataPipeline.constructor` | src/data/dataset.py:119-131 | after initialisation and build, transformations are the built transforms, failure is the build's error if any, and the pipeline is composed iff there is none |
| `Pipeline.DataPipeline.BuildPipeline` | src/data/dataset.py:140-159 | appends the built transforms to transformations, returns the build's error if any, and sets composed only on success |
| `Pipeline.DataPipeline.Apply` | src/data/dataset.py:161-179 | refuses with PipelineNotBuilt when nothing was composed, otherwise returns the left-to-right composition of the transforms applied to the input |

## Left out

- `DataPipeline._load_config` (YAML file I/O): the constructor takes the parsed `pre_processing_steps` list.
- `config_path`: not kept, for the same reason.
- `Pipeline.DataPipeline.constructor`: does not raise the build's `TypeError` out of `__init__` (`dataset.py:131`, `151-155`), because a Dafny constructor cannot fail. It stores the error in `failure` and leaves the object uncomposed, so `Apply` refuses with `PipelineNotBuilt`. In Python, no object exists after a failed build.
- Logging (`logger.info` calls, `src/utils/logger_config.py`): these are side effects only, and the model treats them as no-ops.
- Configuration entries without a `step` or `params` key raise `KeyError` at `dataset.py:147-148`, whatever the step name. `params: null` raises `TypeError` only under a registered name, where `**params` runs (`dataset.py:151`, `153`, `155`). An unregistered name with `params: null` is skipped like any other unregistered step. Every modelled `Step` has a name and a parameter map.
- `Pipeline.MakeTransform` checks the kind of a parameter value at construction (`Fits`). An example is column names for `columns`. Python accepts any value there and fails, or behaves differently, only when the transform is applied. For instance, a single string for `columns` selects a Series.
- Numbers are integers used only for comparison. Floating-point volumes and thresholds are not modelled. Neither is pandas' int-to-float dtype change when outer-join gaps appear.
- Repeated column labels inside one record set: pandas keeps, drops or refuses them depending on the operation. The model's concat lists each label once.
- Other `pd.concat` inputs: `None` entries in the list, Series objects, and iterables other than lists are not modelled.
- Inputs that are neither a record set nor a list of them are not modelled.
- `reset_index(drop=True, inplace=True)` mutates only the fresh result of `pd.concat`, which nothing else references. So it is modelled as the value function `ResetIndex`.
- Image transforms (resize, normalize, colour conversion): `dataset.py` does not implement them.
- `yolov5/models/detect.py`, `src/utils/utils.py`, `src/utils/plotters.py`: detection inference, file export and plotting are not part of this model.
