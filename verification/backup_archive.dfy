/**
 * Assembly of the backup archives: the notebook file (a zip with a parse map and
 * one entry per saved component), the dataset pack uploaded to the cloud, and
 * the auto-save flow around it.
 *
 * The zip is a sequence of named entries; what each store serializes is an
 * opaque value supplied by the caller.
 */
module BackupArchive {
  import opened Common

  // ---------------------------------------------------------------------------
  // The zip writer
  // ---------------------------------------------------------------------------

  /** The component kinds a notebook can hold; any other key is `Unknown`. */
  datatype KrfComponent = Data | Meta | Collection | Causal | Dashboard | Unknown(key: string)

  /** One line of the parse map: which component, under which entry name. */
  datatype ParseMapItem = ParseMapItem(key: KrfComponent, name: string)

  /** A dataset field as the meta store backs it up; `name` may be missing. */
  datatype MuteField = MuteField(fid: string, name: Option<string>, analyticType: string, semanticType: string)

  /** The meta store's backup: the dataset's own fields and the derived ones. */
  datatype MetaBackup = MetaBackup(mutFields: seq<MuteField>, extFields: seq<MuteField>)

  /** The data store's backup: the raw rows. */
  datatype DataBackup = DataBackup(rawData: seq<Row>)

  /** What an entry holds, before it is serialized. */
  datatype Content =
    | ParseMapContent(items: seq<ParseMapItem>, version: string)
    | DataContent(data: DataBackup)
    | MetaContent(meta: MetaBackup)
    | DatasetContent(datasetMeta: MetaBackup, datasetData: DataBackup)
    | SavedJson(json: string)

  datatype Entry = Entry(name: string, content: Content)

  /** A finished archive: its file name and its entries in the order they were added. */
  datatype ArchiveFile = ArchiveFile(name: string, entries: seq<Entry>)

  /** The zip writer: entries are appended in the order `add` is called. */
  class ZipWriter {
    var entries: seq<Entry>

    constructor ()
      ensures entries == []
    {
      entries := [];
    }

    method Add(name: string, content: Content)
      modifies this
      ensures entries == old(entries) + [Entry(name, content)]
    {
      entries := entries + [Entry(name, content)];
    }
  }

  // ---------------------------------------------------------------------------
  // writeNotebookFile
  // ---------------------------------------------------------------------------

  /** What the global stores give back when asked to back up or save. */
  datatype StoreBackups = StoreBackups(
    data: DataBackup,
    meta: MetaBackup,
    collection: string,
    causal: Option<string>,   // causalStore.save(), None when falsy
    dashboard: string)

  /** The name of the parse-map entry. */
  const ParseMapName: string := "parse_map.json"

  /** The entries one parse-map item adds: one, or none for a falsy causal save or an unknown key. */
  function ItemEntry(item: ParseMapItem, stores: StoreBackups): (r: seq<Entry>)
    ensures |r| <= 1
    ensures forall e :: e in r ==> e.name == item.name
  {
    match item.key
    case Data => [Entry(item.name, DataContent(stores.data))]
    case Meta => [Entry(item.name, MetaContent(stores.meta))]
    case Collection => [Entry(item.name, SavedJson(stores.collection))]
    case Causal => if stores.causal.Some? then [Entry(item.name, SavedJson(stores.causal.value))] else []
    case Dashboard => [Entry(item.name, SavedJson(stores.dashboard))]
    case Unknown(_) => []
  }

  /** True when the item adds an entry. */
  predicate Emits(item: ParseMapItem, stores: StoreBackups) {
    match item.key
    case Causal => stores.causal.Some?
    case Unknown(_) => false
    case _ => true
  }

  /** The entries the items add, in item order. */
  function ItemEntries(items: seq<ParseMapItem>, stores: StoreBackups): (r: seq<Entry>)
    ensures |r| <= |items|
    decreases |items|
  {
    if items == [] then []
    else ItemEntries(items[..|items| - 1], stores) + ItemEntry(items[|items| - 1], stores)
  }

  /** All entries of a notebook: the parse map first, then the items' entries. */
  function NotebookEntries(items: seq<ParseMapItem>, stores: StoreBackups, krfVersion: string): (r: seq<Entry>)
    ensures 1 <= |r| <= |items| + 1
    ensures r[0] == Entry(ParseMapName, ParseMapContent(items, krfVersion))
  {
    [Entry(ParseMapName, ParseMapContent(items, krfVersion))] + ItemEntries(items, stores)
  }

  /**
   * writeNotebookFile: adds the parse map (all items and the format version),
   * then walks the items in order adding each component's backup under the
   * item's name, and names the file `<filename>.krf`.
   */
  method WriteNotebookFile(parseMapItems: seq<ParseMapItem>, filename: string, stores: StoreBackups, krfVersion: string)
    returns (file: ArchiveFile)
    ensures file.name == filename + ".krf"
    ensures file.entries == NotebookEntries(parseMapItems, stores, krfVersion)
    ensures file.entries[0] == Entry(ParseMapName, ParseMapContent(parseMapItems, krfVersion))
  {
    var zipWriter := new ZipWriter();
    zipWriter.Add(ParseMapName, ParseMapContent(parseMapItems, krfVersion));
    var i := 0;
    while i < |parseMapItems|
      invariant 0 <= i <= |parseMapItems|
      invariant zipWriter.entries == [Entry(ParseMapName, ParseMapContent(parseMapItems, krfVersion))] + ItemEntries(parseMapItems[..i], stores)
    {
      var item := parseMapItems[i];
      match item.key {
        case Data => zipWriter.Add(item.name, DataContent(stores.data));
        case Meta => zipWriter.Add(item.name, MetaContent(stores.meta));
        case Collection => zipWriter.Add(item.name, SavedJson(stores.collection));
        case Causal =>
          var save := stores.causal;
          if save.Some? {
            zipWriter.Add(item.name, SavedJson(save.value));
          }
        case Dashboard => zipWriter.Add(item.name, SavedJson(stores.dashboard));
        case Unknown(_) =>
      }
      assert parseMapItems[..i + 1][..i] == parseMapItems[..i];
      i := i + 1;
    }
    assert parseMapItems[..i] == parseMapItems;
    file := ArchiveFile(filename + ".krf", zipWriter.entries);
  }

  /** The entries of consecutive runs of items are the concatenation of their entries. */
  lemma {:induction false} ItemEntriesAppend(a: seq<ParseMapItem>, b: seq<ParseMapItem>, stores: StoreBackups)
    ensures ItemEntries(a + b, stores) == ItemEntries(a, stores) + ItemEntries(b, stores)
    decreases |b|
  {
    if b == [] {
      assert a + b == a;
    } else {
      var b', last := b[..|b| - 1], b[|b| - 1];
      assert b == b' + [last];
      assert a + b == (a + b') + [last];
      calc {
        ItemEntries(a + b, stores);
        { ItemEntriesLast(a + b', last, stores); }
        ItemEntries(a + b', stores) + ItemEntry(last, stores);
        { ItemEntriesAppend(a, b', stores); }
        ItemEntries(a, stores) + (ItemEntries(b', stores) + ItemEntry(last, stores));
        { ItemEntriesLast(b', last, stores); }
        ItemEntries(a, stores) + ItemEntries(b, stores);
      }
    }
  }

  lemma ItemEntriesLast(init: seq<ParseMapItem>, last: ParseMapItem, stores: StoreBackups)
    ensures ItemEntries(init + [last], stores) == ItemEntries(init, stores) + ItemEntry(last, stores)
  {
    assert (init + [last])[..|init|] == init;
  }

  /** An item adds one entry exactly when it `Emits`, and that entry carries the item's name. */
  lemma ItemEntryShape(item: ParseMapItem, stores: StoreBackups)
    ensures |ItemEntry(item, stores)| == if Emits(item, stores) then 1 else 0
    ensures Emits(item, stores) ==> ItemEntry(item, stores)[0].name == item.name
  {
  }

  /**
   * When every item emits (no unknown key, and a causal save when a causal item
   * is listed), the notebook holds exactly one entry per item, in item order,
   * each named after its item.
   */
  lemma {:induction false} OneEntryPerEmittingItem(items: seq<ParseMapItem>, stores: StoreBackups)
    requires forall k :: 0 <= k < |items| ==> Emits(items[k], stores)
    ensures |ItemEntries(items, stores)| == |items|
    ensures forall k :: 0 <= k < |items| ==> ItemEntries(items, stores)[k].name == items[k].name
    decreases |items|
  {
    if items != [] {
      var init := items[..|items| - 1];
      OneEntryPerEmittingItem(init, stores);
      ItemEntryShape(items[|items| - 1], stores);
    }
  }

  /** Items that emit nothing (unknown keys, falsy causal saves) add no entries at all. */
  lemma {:induction false} SilentItemsAddNothing(items: seq<ParseMapItem>, stores: StoreBackups)
    requires forall k :: 0 <= k < |items| ==> !Emits(items[k], stores)
    ensures ItemEntries(items, stores) == []
    decreases |items|
  {
    if items != [] {
      SilentItemsAddNothing(items[..|items| - 1], stores);
    }
  }

  /** Every entry after the parse map is named after one of the items. */
  lemma {:induction false} EntriesNamedAfterItems(items: seq<ParseMapItem>, stores: StoreBackups)
    ensures |ItemEntries(items, stores)| <= |items|
    ensures forall e :: e in ItemEntries(items, stores) ==> exists k :: 0 <= k < |items| && items[k].name == e.name
    decreases |items|
  {
    if items != [] {
      var init := items[..|items| - 1];
      EntriesNamedAfterItems(init, stores);
      forall e | e in ItemEntries(items, stores)
        ensures exists k :: 0 <= k < |items| && items[k].name == e.name
      {
        if e in ItemEntries(init, stores) {
          var k :| 0 <= k < |init| && init[k].name == e.name;
          assert items[k] == init[k];
        } else {
          assert items[|items| - 1].name == e.name;
        }
      }
    }
  }

  // ---------------------------------------------------------------------------
  // writeDatasetFile
  // ---------------------------------------------------------------------------

  /** The statistical features attached to a field of a dataset pack. */
  datatype FieldFeatures = FieldFeatures(
    entropy: real, maxEntropy: real, unique: real,
    max: Option<real>, min: Option<real>, sum: Option<real>, mean: Option<real>,
    count: Option<real>, stdev: Option<real>,
    qt_25: Option<real>, qt_50: Option<real>, qt_75: Option<real>)

  /** The features used when no field meta is known: zeros and nulls. */
  const DefaultFeatures: FieldFeatures :=
    FieldFeatures(0.0, 0.0, 0.0, None, None, None, None, None, None, None, None, None)

  /** A field meta computed by the data-source store. */
  datatype FieldMeta = FieldMeta(fid: string, features: FieldFeatures)

  /** A field as listed in the dataset pack's metadata. */
  datatype DatasetFieldMeta = DatasetFieldMeta(
    fid: string, name: string, analyticType: string, semanticType: string, features: FieldFeatures)

  /** The position of the first field meta with this `fid`, or `|fieldMetas|` when none has it. */
  function FirstMetaIndex(fieldMetas: seq<FieldMeta>, fid: string): (k: nat)
    ensures k <= |fieldMetas|
    ensures k < |fieldMetas| ==> fieldMetas[k].fid == fid
    ensures forall j :: 0 <= j < k ==> fieldMetas[j].fid != fid
    decreases |fieldMetas|
  {
    if fieldMetas == [] then 0
    else if fieldMetas[0].fid == fid then 0
    else 1 + FirstMetaIndex(fieldMetas[1..], fid)
  }

  /** `fieldMetas.find(which => which.fid === fid)`. */
  function FindMeta(fieldMetas: seq<FieldMeta>, fid: string): Option<FieldMeta> {
    var k := FirstMetaIndex(fieldMetas, fid);
    if k < |fieldMetas| then Some(fieldMetas[k]) else None
  }

  /** One field of the pack: the field's own attributes, a name, and features. */
  function MergeField(f: MuteField, fieldMetas: seq<FieldMeta>): (r: DatasetFieldMeta)
    ensures r.fid == f.fid && r.analyticType == f.analyticType && r.semanticType == f.semanticType
    ensures r.name == if f.name.Some? then f.name.value else f.fid
    ensures (forall j :: 0 <= j < |fieldMetas| ==> fieldMetas[j].fid != f.fid) ==> r.features == DefaultFeatures
    ensures forall j :: 0 <= j < |fieldMetas| && fieldMetas[j].fid == f.fid
                        && (forall i :: 0 <= i < j ==> fieldMetas[i].fid != f.fid) ==>
      r.features == fieldMetas[j].features
  {
    var meta := FindMeta(fieldMetas, f.fid);
    DatasetFieldMeta(f.fid, f.name.OrElse(f.fid), f.analyticType, f.semanticType,
                     if meta.Some? then meta.value.features else DefaultFeatures)
  }

  /**
   * `allFields`: the dataset's fields then the derived ones, in that order; each
   * named by its own name or else its `fid`, with the features of the first
   * field meta that has its `fid`, or else the default features.
   */
  function AllFields(meta: MetaBackup, fieldMetas: seq<FieldMeta>): (r: seq<DatasetFieldMeta>)
    ensures |r| == |meta.mutFields| + |meta.extFields|
    ensures forall k :: 0 <= k < |r| ==>
      var f := (meta.mutFields + meta.extFields)[k];
      && r[k].fid == f.fid
      && r[k].analyticType == f.analyticType && r[k].semanticType == f.semanticType
      && (f.name.Some? ==> r[k].name == f.name.value)
      && (f.name.None? ==> r[k].name == f.fid)
  {
    var fields := meta.mutFields + meta.extFields;
    seq(|fields|, k requires 0 <= k < |fields| => MergeField(fields[k], fieldMetas))
  }

  /** The features of each field come from the first matching field meta, or are the defaults. */
  lemma AllFieldsFeatures(meta: MetaBackup, fieldMetas: seq<FieldMeta>, k: nat, fid: string)
    requires k < |meta.mutFields| + |meta.extFields|
    requires fid == (meta.mutFields + meta.extFields)[k].fid
    ensures (forall j :: 0 <= j < |fieldMetas| ==> fieldMetas[j].fid != fid) ==>
      AllFields(meta, fieldMetas)[k].features == DefaultFeatures
    ensures forall j :: (0 <= j < |fieldMetas| && fieldMetas[j].fid == fid
                         && (forall i :: 0 <= i < j ==> fieldMetas[i].fid != fid)) ==>
      AllFields(meta, fieldMetas)[k].features == fieldMetas[j].features
  {
    var first := FirstMetaIndex(fieldMetas, fid);
    forall j | 0 <= j < |fieldMetas| && fieldMetas[j].fid == fid
      && (forall i :: 0 <= i < j ==> fieldMetas[i].fid != fid)
      ensures first == j
    {
    }
  }

  /** The dataset pack: the archive, the row count and the field list, as returned. */
  datatype DatasetPack = DatasetPack(file: ArchiveFile, nRows: nat, fields: seq<DatasetFieldMeta>)

  /** The data-source store as writeDatasetFile and autoSaveDataset read it. */
  datatype DataSourceStore = DataSourceStore(
    meta: MetaBackup,
    data: DataBackup,
    fieldMetas: seq<FieldMeta>,
    cloudDataSourceMeta: Option<CloudDataSourceMeta>,
    cloudAutoSaveDatasetMeta: Option<AutoSaveMeta>,
    currentWsp: Option<string>)

  /**
   * writeDatasetFile: one entry with the meta and data backups under the dataset
   * entry name; returns the file named `<filename>.<extension>`, the number of
   * raw rows and the merged field list.
   */
  function WriteDatasetFile(filename: string, store: DataSourceStore, datasetEntryName: string, datasetExtension: string): (r: DatasetPack)
    ensures r.file.name == filename + "." + datasetExtension
    ensures r.file.entries == [Entry(datasetEntryName, DatasetContent(store.meta, store.data))]
    ensures r.nRows == |store.data.rawData|
    ensures r.fields == AllFields(store.meta, store.fieldMetas)
    ensures |r.fields| == |store.meta.mutFields| + |store.meta.extFields|
  {
    DatasetPack(
      ArchiveFile(filename + "." + datasetExtension, [Entry(datasetEntryName, DatasetContent(store.meta, store.data))]),
      |store.data.rawData|,
      AllFields(store.meta, store.fieldMetas))
  }

  // ---------------------------------------------------------------------------
  // autoSaveDataset
  // ---------------------------------------------------------------------------

  /** The name an auto-saved dataset is stored under. */
  const DatasetAutoSaveName: string := "auto save"

  /** Cloud access modifiers; only `Protected` is named by the auto-save code. */
  datatype CloudAccessModifier = Protected | OtherModifier(name: string)

  /** The cloud data source the dataset came from. */
  datatype CloudDataSourceMeta = CloudDataSourceMeta(id: string)

  /** A previous auto-save of this dataset; any of its fields may be missing. */
  datatype AutoSaveMeta = AutoSaveMeta(
    id: Option<string>, datasourceId: Option<string>, workspaceName: Option<string>,
    accessType: Option<CloudAccessModifier>)

  /** The signed-in user. */
  datatype UserInfo = UserInfo(userName: string)

  /** The request handed to the cloud save. */
  datatype SaveRequest = SaveRequest(
    id: Option<string>, datasourceId: string, name: string, workspaceName: string,
    accessType: CloudAccessModifier, size: nat, totalCount: nat, meta: seq<DatasetFieldMeta>)

  /** The user store: whether a save is running, and who is signed in. */
  class UserStore {
    var saving: bool
    var info: Option<UserInfo>

    constructor (info: Option<UserInfo>)
      ensures !saving && this.info == info
    {
      saving := false;
      this.info := info;
    }

    method SetSaving(saving: bool)
      modifies this
      ensures this.saving == saving && info == old(info)
    {
      this.saving := saving;
    }
  }

  /** The early exit of autoSaveDataset: a save already running, or something to save to missing. */
  predicate AutoSaveBlocked(saving: bool, store: DataSourceStore, info: Option<UserInfo>): (b: bool)
    ensures saving ==> b
    ensures !b ==> store.cloudDataSourceMeta.Some? && store.currentWsp.Some? && info.Some?
  {
    saving || store.cloudDataSourceMeta.None? || store.currentWsp.None? || info.None?
  }

  /**
   * The request autoSaveDataset sends: the previous auto-save's id, data source,
   * workspace and access type where it has them, falling back to the cloud data
   * source's id, the current workspace and `Protected`.
   */
  function AutoSaveRequest(store: DataSourceStore, pack: DatasetPack, fileSize: nat): (r: SaveRequest)
    requires store.cloudDataSourceMeta.Some? && store.currentWsp.Some?
    ensures var prev := store.cloudAutoSaveDatasetMeta;
      && (prev.Some? && prev.value.datasourceId.Some? ==> r.datasourceId == prev.value.datasourceId.value)
      && (prev.None? || prev.value.datasourceId.None? ==> r.datasourceId == store.cloudDataSourceMeta.value.id)
      && (prev.Some? && prev.value.workspaceName.Some? ==> r.workspaceName == prev.value.workspaceName.value)
      && (prev.None? || prev.value.workspaceName.None? ==> r.workspaceName == store.currentWsp.value)
      && (prev.Some? && prev.value.accessType.Some? ==> r.accessType == prev.value.accessType.value)
      && (prev.None? || prev.value.accessType.None? ==> r.accessType == Protected)
      && (prev.Some? ==> r.id == prev.value.id)
      && (prev.None? ==> r.id.None?)
    ensures r.name == DatasetAutoSaveName
    ensures r.size == fileSize && r.totalCount == pack.nRows && r.meta == pack.fields
  {
    var prev := store.cloudAutoSaveDatasetMeta;
    SaveRequest(
      if prev.Some? then prev.value.id else None,
      (if prev.Some? then prev.value.datasourceId else None).OrElse(store.cloudDataSourceMeta.value.id),
      DatasetAutoSaveName,
      (if prev.Some? then prev.value.workspaceName else None).OrElse(store.currentWsp.value),
      (if prev.Some? then prev.value.accessType else None).OrElse(Protected),
      fileSize,
      pack.nRows,
      pack.fields)
  }

  /**
   * autoSaveDataset: returns false at once, leaving `saving` alone, when blocked;
   * otherwise sets `saving`, writes the dataset pack named "auto save", hands the
   * request to the cloud save and clears `saving` again whether that succeeds or
   * fails, returning whether it succeeded. `packWritten` says whether writing
   * the pack succeeded (a failure there skips the cloud call), `fileSize` is the
   * zip's size and `cloudSaveSucceeds` the outcome of the cloud call; `sent` is
   * the request handed to the cloud call, or `None` when it is never made.
   */
  method AutoSaveDataset(userStore: UserStore, store: DataSourceStore,
                         datasetEntryName: string, datasetExtension: string,
                         packWritten: bool, fileSize: nat, cloudSaveSucceeds: bool)
    returns (saved: bool, sent: Option<SaveRequest>)
    modifies userStore
    ensures userStore.info == old(userStore.info)
    ensures AutoSaveBlocked(old(userStore.saving), store, userStore.info) ==>
      !saved && sent.None? && userStore.saving == old(userStore.saving)
    ensures !AutoSaveBlocked(old(userStore.saving), store, userStore.info) && !packWritten ==>
      !saved && sent.None? && !userStore.saving
    ensures !AutoSaveBlocked(old(userStore.saving), store, userStore.info) && packWritten ==>
      && saved == cloudSaveSucceeds
      && !userStore.saving
      && sent == Some(AutoSaveRequest(store,
                        WriteDatasetFile(DatasetAutoSaveName, store, datasetEntryName, datasetExtension), fileSize))
  {
    if userStore.saving || store.cloudDataSourceMeta.None? || store.currentWsp.None? || userStore.info.None? {
      return false, None;
    }
    userStore.SetSaving(true);
    if !packWritten {
      userStore.SetSaving(false);
      return false, None;
    }
    var pack := WriteDatasetFile(DatasetAutoSaveName, store, datasetEntryName, datasetExtension);
    var request := AutoSaveRequest(store, pack, fileSize);
    sent := Some(request);
    if cloudSaveSucceeds {
      userStore.SetSaving(false);
      saved := true;
    } else {
      userStore.SetSaving(false);
      saved := false;
    }
  }
}
