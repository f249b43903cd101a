# Explore store, backup archive and data-source helpers of Rath

This project models three parts of the Rath data-exploration front end in
Dafny and proves properties about them.

- **The explore store** (`exploreStore.ts`). This is the MobX store behind the
  insight-exploration page. It holds:
  - the page index into the ranked insight spaces of the pipeline store;
  - the current view spec and the schema handed to Graphic Walker;
  - the detail and association lists and the UI flags;
  - the visual configuration;
  - the seeded `view`, the user-editable `forkView` and the fork view's spec.

  Each operation is a pure step function on an `ExploreState` record, such as
  `ViewChange`, `GoToNext`, `AddField` or `RemoveField`. The class
  `ExploreStore` has the same fields. Each of its methods ensures that its new
  state equals that step function applied to the old state. The methods carry
  the source's method names, with the misspellings of `setVisualConig` and
  `bringToGrphicWalker` corrected. The step functions that would clash with
  them are named after the state they produce: `RespecifiedFork`,
  `WithDetails`, `WithAssociations`, `HandedToGraphicWalker` and `ResultsFile`. The pipeline store
  is a separate `LTSPipeLine` object that no method may modify, so the insight
  spaces provably never change. Every view and field list is a value (see
  "## Left out" for what that assumes).

  The pipeline's `specify`, `scanDetails` and `getAssociatedViews` are function
  parameters. A store-wide invariant, `Consistent`, is proved to be kept by any
  sequence of operations that starts in a consistent state, provided that the
  insight spaces hold no field twice in a role and that the insight spaces and
  `specify` stay the same throughout. It says:
  - the page index is valid;
  - the current spec belongs to the current page;
  - `view` is that page's seed;
  - the fork view has no duplicate fields.
- **The backup archive** (`backupModal/utils.ts`). It covers three operations:
  - writing a `.krf` notebook: a parse map, then one entry per emitting item,
    in item order;
  - writing a dataset pack: one archive entry, the row count, and the merged
    field list with default features;
  - the guarded cloud auto-save, which sets and clears the user store's
    `saving` flag.
- **The data-source helpers** (`dataSource/utils/index.ts`):
  - `getQuantiles` sorts a copy of the values and reads one order statistic
    per percent. A read outside the array gives `None`; the source gets
    `undefined` or `NaN` there.
  - `loadRathStorageFile` checks the file name's last `.`-segment against the
    storage suffix.
  - `loadDataFile` dispatches on the MIME type to a reader and a sampling plan.

The getQuantiles code returns `sorted[floor(p*n)]` in both of its branches:
the "midpoint" averages an element with itself. The model follows the code.
It does not implement the interpolation the branch structure seems to aim at.
`MidpointCollapses` and the `ensures` of `GetQuantiles` state this.

## Model

| member | source | states |
|---|---|---|
| ExploreStoreModel.ExploreStore.constructor | packages/frontend/src/store/exploreStore.ts:24-58 | A new store starts on page 0 with no spec, empty lists, flags off, the visual config `sum`/aggregated/stacked, and no view or fork view |
| ExploreStoreModel.InitialConsistent | packages/frontend/src/store/exploreStore.ts:24-58 | The initial state satisfies the store invariant for any insight spaces |
| ExploreStoreModel.Seed | packages/frontend/src/store/exploreStore.ts:142-143 | A seeded view has the space's dimensions and measures and one `sum` op per measure |
| ExploreStoreModel.ViewChange | packages/frontend/src/store/exploreStore.ts:123-147 | An out-of-range index or a missing spec changes nothing. Otherwise the update commits the spec, the page, cleared details and associations, and the seeded fork view and view; `defaultAggregated` is set iff the geometry has no point; every other field is kept |
| ExploreStoreModel.ExploreStore.EmitViewChangeTransaction | packages/frontend/src/store/exploreStore.ts:123-147 | The store's new state is `ViewChange` of its old state on the pipeline's insight spaces |
| ExploreStoreModel.NextTarget | packages/frontend/src/store/exploreStore.ts:119-122 | There is no target exactly when there are no spaces. Otherwise the target is in range and is the next index, wrapping to 0 after the last |
| ExploreStoreModel.LastTarget | packages/frontend/src/store/exploreStore.ts:115-118 | There is no target exactly when there are no spaces. Otherwise the target is in range and is the previous index, wrapping to the last before 0 |
| ExploreStoreModel.ExploreStore.GoToNextView | packages/frontend/src/store/exploreStore.ts:119-122 | The new state is the transaction on the next target, or unchanged when there are no spaces |
| ExploreStoreModel.GoToNext | packages/frontend/src/store/exploreStore.ts:119-122 | With no spaces nothing changes. Otherwise the store is unchanged or on a page inside the spaces. From a valid page whose next page (wrapping to 0) can be specified, the store lands on that page with its spec and seeded view |
| ExploreStoreModel.GoToLast | packages/frontend/src/store/exploreStore.ts:115-118 | With no spaces nothing changes. Otherwise the store is unchanged or on a page inside the spaces. From a valid page whose previous page (wrapping to the last) can be specified, the store lands on that page with its spec and seeded view |
| ExploreStoreModel.ExploreStore.GoToLastView | packages/frontend/src/store/exploreStore.ts:115-118 | The new state is the transaction on the previous target, or unchanged when there are no spaces |
| ExploreStoreModel.TargetsUndoEachOther | packages/frontend/src/store/exploreStore.ts:115-122 | From a valid page, the next target's previous target is that page, and so is the previous target's next target |
| ExploreStoreModel.UnspecifiableSpacesBlockNavigation | packages/frontend/src/store/exploreStore.ts:115-147 | When `specify` gives nothing for every insight space, going to the next or the previous view changes nothing |
| ExploreStoreModel.NextThenLastReturns | packages/frontend/src/store/exploreStore.ts:115-147 | When every space can be specified, going forward and then back (or back and then forward) returns to the same page with the same spec and the same seeded view |
| ExploreStoreModel.FirstMatchFrom | packages/frontend/src/store/exploreStore.ts:76-81 | The result is the first index at or after the start whose dimension set and measure set equal the candidate's, or none when no later index matches |
| ExploreStoreModel.JumpTo | packages/frontend/src/store/exploreStore.ts:73-82 | With no matching space nothing changes. Otherwise the store is unchanged or on a page whose field sets match the candidate, with that page's spec |
| ExploreStoreModel.ExploreStore.JumpToView | packages/frontend/src/store/exploreStore.ts:73-82 | The loop stops at the first matching space and runs the transaction there; with no match nothing changes |
| ExploreStoreModel.JumpIgnoresFieldOrder | packages/frontend/src/store/exploreStore.ts:77 | Two candidates with equal field sets jump to the same state, whatever the order or repetition of their fields |
| ExploreStoreModel.JumpFindsFirstMatch | packages/frontend/src/store/exploreStore.ts:73-82 | If space k is the first match and can be specified, the jump lands on page k with that spec |
| ExploreStoreModel.WithRoleList | packages/frontend/src/store/exploreStore.ts:153-155 | Replacing the list of one role leaves the other role's list and the ops unchanged |
| ExploreStoreModel.FindIndex | packages/frontend/src/store/exploreStore.ts:162 | The result is -1 iff the field is absent; otherwise it is the first position of the field |
| ExploreStoreModel.RemoveFirst | packages/frontend/src/store/exploreStore.ts:162-165 | An absent field leaves the list unchanged. A present one makes it one shorter, and no new element appears |
| ExploreStoreModel.RemoveAt | packages/frontend/src/store/exploreStore.ts:164 | `splice(i, 1)`: one element shorter, elements before `i` kept, later ones shifted down by one |
| ExploreStoreModel.RemoveFirstTakesOneCopy | packages/frontend/src/store/exploreStore.ts:162-165 | Removal takes exactly one copy of the field out of the multiset of the list; an absent field leaves the list unchanged |
| ExploreStoreModel.RemoveFirstKeepsNoDuplicates | packages/frontend/src/store/exploreStore.ts:162-165 | Removing from a duplicate-free list leaves it duplicate-free and without the field |
| ExploreStoreModel.AppendAbsentKeepsNoDuplicates | packages/frontend/src/store/exploreStore.ts:153-155 | Appending a field that is not yet present keeps the list duplicate-free |
| ExploreStoreModel.AppendThenRemoveFirst | packages/frontend/src/store/exploreStore.ts:151-165 | Pushing an absent field and then removing its first occurrence gives back the original list |
| ExploreStoreModel.RespecifiedFork | packages/frontend/src/store/exploreStore.ts:86-99 | Only `forkViewSpec` may change. It is replaced by the spec of the fork view's fields when there is a fork view and a spec; otherwise nothing changes |
| ExploreStoreModel.ExploreStore.SpecifyForkView | packages/frontend/src/store/exploreStore.ts:86-99 | The new state is `RespecifiedFork` of the old |
| ExploreStoreModel.AddField | packages/frontend/src/store/exploreStore.ts:151-159 | Only the fork view and its spec may change. An absent fork view or a field already present changes nothing. Otherwise the field is appended to its role, the other role and the ops are kept, and the fork view is re-specified |
| ExploreStoreModel.ExploreStore.AddFieldToForkView | packages/frontend/src/store/exploreStore.ts:151-159 | The new state is `AddField` of the old |
| ExploreStoreModel.RemoveField | packages/frontend/src/store/exploreStore.ts:160-168 | Only the fork view and its spec may change. With a fork view, the role's list loses the first copy of the field, the other role and the ops are kept, and the fork view is re-specified |
| ExploreStoreModel.ExploreStore.RemoveFieldFromForkView | packages/frontend/src/store/exploreStore.ts:160-168 | The new state is `RemoveField` of the old; the removal goes through `findIndex` and `splice` |
| ExploreStoreModel.AddFieldIdempotent | packages/frontend/src/store/exploreStore.ts:151-159 | Adding the same field twice has the same effect as adding it once |
| ExploreStoreModel.AddThenRemoveRestoresForkView | packages/frontend/src/store/exploreStore.ts:151-168 | Adding an absent field and then removing it restores the fork view |
| ExploreStoreModel.RemoveAbsentStillRespecifies | packages/frontend/src/store/exploreStore.ts:160-168 | Removing an absent field leaves the lists as they are but still re-specifies the fork view |
| ExploreStoreModel.WithDetails | packages/frontend/src/store/exploreStore.ts:169-174 | The details become the pipeline's result; nothing else changes |
| ExploreStoreModel.ExploreStore.ScanDetails | packages/frontend/src/store/exploreStore.ts:169-174 | The new state is `WithDetails` of the old with the pipeline's result for the index |
| ExploreStoreModel.WithAssociations | packages/frontend/src/store/exploreStore.ts:190-197 | Both association lists come from the current page's associations, the flag is set, and nothing else changes |
| ExploreStoreModel.ExploreStore.GetAssociatedViews | packages/frontend/src/store/exploreStore.ts:190-197 | The new state is `WithAssociations` of the old |
| ExploreStoreModel.HandedToGraphicWalker | packages/frontend/src/store/exploreStore.ts:198-202 | With a spec, its schema is handed to Graphic Walker; without one nothing changes; no other field changes |
| ExploreStoreModel.ExploreStore.BringToGraphicWalker | packages/frontend/src/store/exploreStore.ts:198-202 | The new state is `HandedToGraphicWalker` of the old |
| ExploreStoreModel.ExploreStore.SetVisualConfig | packages/frontend/src/store/exploreStore.ts:68-72 | Only the visual config changes, to the updater's result |
| ExploreStoreModel.ExploreStore.SetShowPreferencePannel | packages/frontend/src/store/exploreStore.ts:83-85 | Only the preference-panel flag changes |
| ExploreStoreModel.ExploreStore.SetAggState | packages/frontend/src/store/exploreStore.ts:148-150 | Only `defaultAggregated` changes |
| ExploreStoreModel.StepKeepsConsistent | packages/frontend/src/store/exploreStore.ts:68-202 | Every store operation preserves the invariant when the insight spaces are duplicate-free. The invariant covers a valid page, the spec and view of the current page, and a duplicate-free fork view |
| ExploreStoreModel.RunKeepsConsistent | packages/frontend/src/store/exploreStore.ts:68-202 | Any sequence of operations keeps the invariant, given a consistent start, insight spaces with no field twice in a role, and the same insight spaces and `specify` throughout |
| ExploreStoreModel.Step | packages/frontend/src/store/exploreStore.ts:68-202 | One store operation. Only the navigation operations can move the page or change the spec or the seeded view. Only the two config setters and the navigation operations change the visual config, and each setter stores its argument |
| ExploreStoreModel.PageChangeClearsAssociations | packages/frontend/src/store/exploreStore.ts:136-140 | An operation that moves the page leaves the details and both association lists empty and hides the associations |
| ExploreStoreModel.ForkEditsLeaveViewAlone | packages/frontend/src/store/exploreStore.ts:141-168 | Editing or re-specifying the fork view never changes the seeded view, the spec or the page |
| ExploreStoreModel.ResultsFile | packages/frontend/src/store/exploreStore.ts:175-189 | A failed pipeline await saves nothing. Otherwise the file is `Rath_Analysis_Notebook.<suffix>`, and its text is the data part, the separator and the pipeline part, each in its place |
| ExploreStoreModel.ExploreStore.DownloadResults | packages/frontend/src/store/exploreStore.ts:175-189 | Returns the file `ResultsFile` describes and changes nothing in the store |
| ExploreStoreModel.FindFrom | packages/frontend/src/store/exploreStore.ts:182 | The result is the first occurrence of the separator at or after the start, or none |
| ExploreStoreModel.DownloadSplitsBack | packages/frontend/src/store/exploreStore.ts:182 | If the separator does not occur inside the data part, cutting the saved text at its first separator gives back the data and pipeline parts |
| BackupArchive.ZipWriter.Add | packages/rath-client/src/components/backupModal/utils.ts:17-23 | Each `add` appends one named entry after the existing ones |
| BackupArchive.WriteNotebookFile | packages/rath-client/src/components/backupModal/utils.ts:9-60 | The file is `<filename>.krf`. It holds the parse map (items and version) first, then each item's entries in item order |
| BackupArchive.ItemEntry | packages/rath-client/src/components/backupModal/utils.ts:19-55 | One item adds at most one entry, and that entry is named after the item |
| BackupArchive.ItemEntries | packages/rath-client/src/components/backupModal/utils.ts:18-56 | The items' entries, in item order, are never more than the items |
| BackupArchive.NotebookEntries | packages/rath-client/src/components/backupModal/utils.ts:9-56 | The parse map with the items and the version comes first, followed by at most one entry per item |
| BackupArchive.ItemEntryShape | packages/rath-client/src/components/backupModal/utils.ts:19-55 | An item adds one entry under its own name if it emits, and none otherwise |
| BackupArchive.ItemEntriesAppend | packages/rath-client/src/components/backupModal/utils.ts:18-56 | The entries of two runs of items are the concatenation of their entries |
| BackupArchive.OneEntryPerEmittingItem | packages/rath-client/src/components/backupModal/utils.ts:18-56 | When every item emits, there is one entry per item, in order, each named after its item |
| BackupArchive.SilentItemsAddNothing | packages/rath-client/src/components/backupModal/utils.ts:38-54 | Unknown keys and falsy causal saves add no entries |
| BackupArchive.EntriesNamedAfterItems | packages/rath-client/src/components/backupModal/utils.ts:18-56 | There are at most as many entries as items, and each entry is named after some item |
| BackupArchive.FirstMetaIndex | packages/rath-client/src/components/backupModal/utils.ts:73 | The result is the position of the first field meta with the fid, or the length when there is none |
| BackupArchive.MergeField | packages/rath-client/src/components/backupModal/utils.ts:73-91 | The merged field keeps the fid and types, is named by its name or else its fid, and has the features of the first field meta with its fid, or the defaults when none has it |
| BackupArchive.AllFields | packages/rath-client/src/components/backupModal/utils.ts:72-92 | The list is the dataset's fields then the derived fields. Each keeps its fid and types, and is named by its name or else its fid |
| BackupArchive.AllFieldsFeatures | packages/rath-client/src/components/backupModal/utils.ts:73-90 | A field's features come from the first field meta with its fid, or are zeros and nulls when none has it |
| BackupArchive.WriteDatasetFile | packages/rath-client/src/components/backupModal/utils.ts:62-96 | The file is `<filename>.<extension>` with one entry holding the meta and data backups. The result also carries the raw row count and is exactly the merged field list `AllFields` of the backed-up fields |
| BackupArchive.UserStore.SetSaving | packages/rath-client/src/components/backupModal/utils.ts:110 | Sets the `saving` flag and leaves the user info alone |
| BackupArchive.AutoSaveBlocked | packages/rath-client/src/components/backupModal/utils.ts:105 | A running save blocks; when not blocked, the cloud data source, the workspace and the user info are all present |
| BackupArchive.AutoSaveRequest | packages/rath-client/src/components/backupModal/utils.ts:112-121 | The id, data source, workspace and access type come from the previous auto-save where present. Otherwise they fall back to no id, the cloud data source, the current workspace and `Protected`. The name is "auto save"; size, count and fields come from the pack |
| BackupArchive.AutoSaveDataset | packages/rath-client/src/components/backupModal/utils.ts:100-138 | When blocked, it returns false, sends nothing and leaves `saving` alone. When writing the pack fails, it returns false, sends nothing and leaves `saving` cleared. Otherwise it sends the auto-save request for the "auto save" pack, returns the cloud outcome and leaves `saving` cleared |
| DataSourceUtils.Insert | packages/frontend/src/pages/dataSource/utils/index.ts:117 | Inserting makes the sequence one longer and puts the value in it |
| DataSourceUtils.InsertKeepsSorted | packages/frontend/src/pages/dataSource/utils/index.ts:117 | Inserting into an ascending sequence keeps it ascending |
| DataSourceUtils.InsertAddsOneCopy | packages/frontend/src/pages/dataSource/utils/index.ts:117 | Inserting adds exactly one copy of the value and keeps every other element |
| DataSourceUtils.SortAscending | packages/frontend/src/pages/dataSource/utils/index.ts:117 | The sorted copy is ascending and a permutation of the values |
| DataSourceUtils.At | packages/frontend/src/pages/dataSource/utils/index.ts:123-125 | Indexing outside the array gives no number; inside, it gives the element |
| DataSourceUtils.OrderStatistic | packages/frontend/src/pages/dataSource/utils/index.ts:118-126 | The quantile is a number exactly when `floor(p * n)` is a position of the sorted values, and then it is one of them |
| DataSourceUtils.Rank | packages/frontend/src/pages/dataSource/utils/index.ts:118-121 | The read position is the integer floor of `p * n` |
| DataSourceUtils.Midpoint | packages/frontend/src/pages/dataSource/utils/index.ts:125 | The average is a number iff both operands are, and averaging a value with itself gives that value |
| DataSourceUtils.GetQuantiles | packages/frontend/src/pages/dataSource/utils/index.ts:116-130 | One result per percent, in order, each the order statistic of the sorted copy at `floor(p * n)`, or no number when that position is outside the values |
| DataSourceUtils.MidpointCollapses | packages/frontend/src/pages/dataSource/utils/index.ts:124-126 | The exact-position branch averages `sorted[k]` with `sorted[min(k, n-1)]`, which equals `sorted[k]` |
| DataSourceUtils.QuantileDefinedRange | packages/frontend/src/pages/dataSource/utils/index.ts:118-126 | A quantile is a number exactly when there are values and `0 <= p < 1`; `p == 1` reads past the end |
| DataSourceUtils.RankInRange | packages/frontend/src/pages/dataSource/utils/index.ts:118-121 | `floor(p * n)` is a valid position exactly when `n > 0` and `0 <= p < 1` |
| DataSourceUtils.RankMonotone | packages/frontend/src/pages/dataSource/utils/index.ts:118-121 | A larger percent reads the same or a later position |
| DataSourceUtils.QuantilesMonotone | packages/frontend/src/pages/dataSource/utils/index.ts:116-130 | Quantiles never decrease as the percent grows |
| DataSourceUtils.QuantileIsAnInputValue | packages/frontend/src/pages/dataSource/utils/index.ts:116-130 | Every quantile that is a number is one of the input values |
| DataSourceUtils.QuantileBounds | packages/frontend/src/pages/dataSource/utils/index.ts:116-130 | Percent 0 reads the minimum, and every quantile lies between the minimum and the maximum |
| DataSourceUtils.LastSegment | packages/frontend/src/pages/dataSource/utils/index.ts:108 | The segment is the longest suffix of the name with no '.': either the whole name or the text after its last '.' |
| DataSourceUtils.CheckRathStorageFile | packages/frontend/src/pages/dataSource/utils/index.ts:106-114 | The file is read iff its last segment equals the storage suffix. Otherwise the rejection says "file type not supported: " followed by that segment |
| DataSourceUtils.StorageNameAccepted | packages/frontend/src/pages/dataSource/utils/index.ts:108 | For a suffix without '.', a name is accepted iff it is the suffix itself or ends in '.' followed by the suffix |
| DataSourceUtils.DottedSuffixNeverAccepted | packages/frontend/src/pages/dataSource/utils/index.ts:108 | A suffix containing '.' never matches, so every such name is rejected |
| DataSourceUtils.StemWithSuffixAccepted | packages/frontend/src/pages/dataSource/utils/index.ts:108 | Any stem followed by '.' and the suffix is accepted |
| DataSourceUtils.LoadDataFilePlan | packages/frontend/src/pages/dataSource/utils/index.ts:65-104 | The CSV reader is chosen iff the MIME type is CSV or Excel, and the JSON loader iff it is JSON. Any other type fails with "unsupported file type=<type> ". Reservoir sampling of the given size applies iff it is chosen |
| DataSourceUtils.OmittedSampleSize | packages/frontend/src/pages/dataSource/utils/index.ts:65 | Without a `sampleSize`, a CSV, Excel or JSON file chosen for reservoir sampling is sampled to 500 rows |

## Left out

- MobX reactivity, `runInAction`, and the interleaving of `async` calls. Each store method is one atomic step that receives the awaited results as parameters. A late result arriving after a newer navigation is not modelled.
- The pipeline store (`LTSPipeLine`), including `specify`, `scanDetails`, `getAssociatedViews`, `downloadResults` and `exportDataStore`. These become function parameters or input strings. `./pipeLineStore/lts` is not part of this model. The getters `fields` and `dataSource` are not modelled because no operation of the store uses them.
- `isSetEqual` lives in `../utils`, which is not part of this model. It is taken to be equality of the element sets.
- `emitViewChangeTransaction` also checks that the insight spaces are defined. The model's spaces are always a sequence, so an undefined sequence is not represented.
- The `Aggregator` enum beyond `sum`, and the rest of `PreferencePanelConfig`, are reduced to `Sum | OtherAggregator(name)` and three fields.
- The DOM download (`createElement`, `encodeURIComponent`, `click`) is left out. The model produces the file name and the text content.
- The values of `STORAGE_FILE_SUFFIX`, `RESULT_STORAGE_SPLITOR`, `KRF_VERSION`, `KanariesDatasetFilenameCloud` and `KanariesDatasetPackCloudExtension` are parameters. The files defining them (`constants.ts`, `utils/download`) are not part of this model.
- zip.js compression, `TextReader`, `Blob` and `File` are left out. An archive is its name and its list of named entries, and JSON serialization is kept symbolic: an entry holds the backed-up value itself.
- `getGlobalStore` is left out. The stores' backups are passed in as values (`StoreBackups`, `DataSourceStore`, `UserStore`).
- `notify` is left out: user notifications are I/O.
- AutoSaveDataset: the zip's `file.size` is an input. Whether writing the pack succeeds and whether the cloud call succeeds are two boolean inputs; a failed pack write skips the cloud call, so nothing is sent. The intermediate `saving == true` during the awaits is not observable in a one-step method.
- Seed, AddFieldToForkView, RemoveFieldFromForkView: the model gives `forkView`, `view` and the insight spaces value semantics, so no two of them can share a field array. This assumes that MobX's deep observable copies the plain `iSpace.dimensions`/`iSpace.measures` arrays assigned at `exploreStore.ts:142-143`. If `LTSPipeLine` (not part of this model) held them as observable arrays, MobX would keep them shared. The `push` at :155 and the `splice` at :164 would then also change `view` and the insight space. `ForkEditsLeaveViewAlone` and the unchanged-spaces frame would no longer describe the program. This aliasing is not modelled.
- MuteField: a backed-up field keeps only `fid`, `name`, `analyticType` and `semanticType`. The other attributes that the spread `{...f}` copies into the merged field are not represented.
- CSV/JSON parsing, reservoir sampling, the worker-based `transformFileDataService`, `FileLoader.textLoader`, `RathStorageParse` and `useSampleOptions` (a React hook) are left out. `LoadDataFilePlan` captures which reader and which sampling `loadDataFile` chooses.
- getQuantiles works on IEEE doubles. The model uses exact reals, keeps no `NaN` values inside the input, and reads `undefined`/`NaN` results as `None`.
- `test/index.js` and the dashboard renderer are not modelled; they are context only.
