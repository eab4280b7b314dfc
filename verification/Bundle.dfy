/** The relational store, the portable bundle, and what exporting and importing mean. */
module Bundle {
  import opened Common
  import opened Json
  import opened BundleMerge
  import Base64
  import Sorting

  // ---- Tables ----

  /** The nullable columns a merge by host rewrites. */
  datatype TargetDetails = TargetDetails(normalizedHost: Option<string>, tags: Option<seq<string>>)

  datatype CollectionDetails = CollectionDetails(description: string, updatedAt: Time)

  datatype Pwhois = Pwhois(data: Option<Document>, lookedUpAt: Option<Time>, originAs: Option<string>,
      orgName: Option<string>,
      countryCode: Option<string>, city: Option<string>, prefix: Option<string>)

  /** Columns that are copied as they are in both directions. */
  datatype SnapshotBody = SnapshotBody(scannedAt: Time, lastSeen: Time, dataHash: string, pwhois: Pwhois)

  datatype SnapshotRow = SnapshotRow(targetId: Id, body: SnapshotBody, rawData: Document, changes: Option<seq<string>>,
                                     changeDetails: Option<seq<Document>>, clientIp: Option<string>)

  datatype BlobFixed = BlobFixed(id: Id, createdAt: Time)
  datatype BlobSoft = BlobSoft(contentType: string, data: seq<Base64.byte>)

  datatype NoteBody = NoteBody(title: string, text: string, graphNodeLabel: Option<string>,
      graphNodeType: Option<string>,
      trashedAt: Option<Time>, archivedAt: Option<Time>, createdAt: Time, updatedAt: Time)

  datatype NoteRow = NoteRow(body: NoteBody, status: string, targetId: Option<Id>, snapshotId: Option<Id>,
                             collectionId: Option<Id>, graphNodeId: Option<string>, refs: seq<Document>)

  datatype ViewBody = ViewBody(description: string, viewMode: string, vantageFilter: string, compareMode: string,
                               selectedNodeId: Option<string>, createdAt: Time, updatedAt: Time)

  datatype ViewRow = ViewRow(name: string, body: ViewBody, targetId: Option<Id>, snapshotId: Option<Id>,
                             compareSnapshotId: Option<Id>, pinned: Document)

  datatype WebhookBody = WebhookBody(name: string, kind: string, url: string, config: Document, enabled: bool,
      updatedAt: Time)

  datatype SettingsRow = SettingsRow(value: Json, updatedAt: Time)

  /** Blobs are keyed by (snapshot, kind), memberships by (collection, target). */
  type BlobRows = map<(Id, string), Slot<BlobFixed, BlobSoft>>
  type MemberRows = map<(Id, Id), Slot<(), Time>>

  /** A webhook's created_at is fixed. */
  datatype Tables = Tables(
    targets: map<Id, Named<TargetDetails>>,
    snapshots: map<Id, SnapshotRow>,
    blobs: BlobRows,
    collections: map<Id, Named<CollectionDetails>>,
    members: MemberRows,
    notes: map<Id, NoteRow>,
    views: map<Id, ViewRow>,
    webhooks: map<Id, Slot<Time, WebhookBody>>,
    settings: Option<SettingsRow>)

  const EmptyTables := Tables(map[], map[], map[], map[], map[], map[], map[], map[], None)

  // ---- Constraints ----

  ghost predicate SnapshotRefs(targets: set<Id>, rows: map<Id, SnapshotRow>) {
    forall i :: i in rows ==> rows[i].targetId in targets
  }

  ghost predicate BlobRefs(snapshots: set<Id>, rows: BlobRows) {
    && (forall k :: k in rows ==> k.0 in snapshots)
    && (forall j, k :: j in rows && k in rows && rows[j].fixed.id == rows[k].fixed.id ==> j == k)
  }

  ghost predicate MemberRefs(collections: set<Id>, targets: set<Id>, rows: MemberRows) {
    forall k :: k in rows ==> k.0 in collections && k.1 in targets
  }

  predicate RefOk(id: Option<Id>, ids: set<Id>) {
    id.Some? ==> id.value in ids
  }

  predicate NoteOk(targets: set<Id>, snapshots: set<Id>, collections: set<Id>, n: NoteRow) {
    && (n.status == "active" || n.status == "archived" || n.status == "trashed")
    && (n.targetId.Some? || n.snapshotId.Some? || n.collectionId.Some? || n.graphNodeId.Some?)
    && RefOk(n.targetId, targets) && RefOk(n.snapshotId, snapshots) && RefOk(n.collectionId, collections)
  }

  ghost predicate NoteRefs(targets: set<Id>, snapshots: set<Id>, collections: set<Id>, rows: map<Id, NoteRow>) {
    forall i :: i in rows ==> NoteOk(targets, snapshots, collections, rows[i])
  }

  ghost predicate ViewRefs(targets: set<Id>, snapshots: set<Id>, rows: map<Id, ViewRow>) {
    && (forall i :: i in rows ==>
          RefOk(rows[i].targetId, targets) && RefOk(rows[i].snapshotId, snapshots)
              && RefOk(rows[i].compareSnapshotId, snapshots))
    && (forall i, j :: i in rows && j in rows && rows[i].name == rows[j].name ==> i == j)
  }

  ghost predicate Valid(t: Tables) {
    && UniqueKeys(t.targets) && UniqueKeys(t.collections)
    && SnapshotRefs(t.targets.Keys, t.snapshots)
    && BlobRefs(t.snapshots.Keys, t.blobs)
    && MemberRefs(t.collections.Keys, t.targets.Keys, t.members)
    && NoteRefs(t.targets.Keys, t.snapshots.Keys, t.collections.Keys, t.notes)
    && ViewRefs(t.targets.Keys, t.snapshots.Keys, t.views)
  }

  ghost function SnapshotsOk(targets: set<Id>): map<Id, SnapshotRow> -> bool {
    (rows: map<Id, SnapshotRow>) => SnapshotRefs(targets, rows)
  }

  ghost function BlobsOk(snapshots: set<Id>): BlobRows -> bool {
    (rows: BlobRows) => BlobRefs(snapshots, rows)
  }

  ghost function MembersOk(collections: set<Id>, targets: set<Id>): MemberRows -> bool {
    (rows: MemberRows) => MemberRefs(collections, targets, rows)
  }

  ghost function NotesOk(targets: set<Id>, snapshots: set<Id>, collections: set<Id>): map<Id, NoteRow> -> bool {
    (rows: map<Id, NoteRow>) => NoteRefs(targets, snapshots, collections, rows)
  }

  ghost function ViewsOk(targets: set<Id>, snapshots: set<Id>): map<Id, ViewRow> -> bool {
    (rows: map<Id, ViewRow>) => ViewRefs(targets, snapshots, rows)
  }

  ghost function WebhooksOk(): map<Id, Slot<Time, WebhookBody>> -> bool {
    (rows: map<Id, Slot<Time, WebhookBody>>) => true
  }

  // ---- The bundle ----

  const FORMAT_VERSION := 1

  /** None is Go's nil. */
  datatype ExportTarget = ExportTarget(id: Id, host: string, normalizedHost: string, tags: Option<seq<string>>,
      createdAt: Time)
  datatype ExportSnapshot = ExportSnapshot(id: Id, targetId: Id, body: SnapshotBody, rawData: Option<Document>,
                                           changes: Option<seq<string>>, changeDetails: Option<seq<Document>>,
                                           clientIp: string)
  datatype ExportBlob = ExportBlob(id: Id, snapshotId: Id, kind: string, contentType: string, dataBase64: string)
  datatype ExportCollection = ExportCollection(id: Id, name: string, description: string, createdAt: Time,
      updatedAt: Time)
  datatype ExportMember = ExportMember(collectionId: Id, targetId: Id, addedAt: Time)
  datatype ExportNote = ExportNote(id: Id, body: NoteBody, status: string, targetId: Option<Id>, snapshotId: Option<Id>,
                                   collectionId: Option<Id>, graphNodeId: Option<string>, refs: Option<seq<Document>>)
  datatype ExportView = ExportView(id: Id, name: string, body: ViewBody, targetId: Option<Id>, snapshotId: Option<Id>,
                                   compareSnapshotId: Option<Id>, pinned: Option<Document>)
  datatype ExportWebhook = ExportWebhook(id: Id, name: string, kind: string, url: string, config: Option<Document>,
      enabled: bool, createdAt: Time, updatedAt: Time)

  datatype ExportBundle = ExportBundle(
    formatVersion: int,
    targets: seq<ExportTarget>,
    snapshots: seq<ExportSnapshot>,
    blobs: seq<ExportBlob>,
    collections: seq<ExportCollection>,
    members: seq<ExportMember>,
    notes: seq<ExportNote>,
    views: seq<ExportView>,
    webhooks: seq<ExportWebhook>,
    settings: Option<Document>)

  function OrElse<T>(value: Option<T>, fallback: T): T {
    if value.Some? then value.value else fallback
  }

  function Map<X, Y>(f: X -> Y, s: seq<X>): (r: seq<Y>)
    ensures |r| == |s| && forall i :: 0 <= i < |s| ==> r[i] == f(s[i])
  {
    seq(|s|, i requires 0 <= i < |s| => f(s[i]))
  }

  // ---- Export: row to item ----

  function TargetOut(id: Id, r: Named<TargetDetails>): ExportTarget {
    ExportTarget(id, r.key, OrElse(r.details.normalizedHost, ""), Some(OrElse(r.details.tags, [])), r.createdAt)
  }

  function SnapshotOut(id: Id, r: SnapshotRow): ExportSnapshot {
    ExportSnapshot(id, r.targetId, r.body, Some(r.rawData), Some(OrElse(r.changes, [])),
        Some(OrElse(r.changeDetails, [])),
        OrElse(r.clientIp, ""))
  }

  function BlobOut(key: (Id, string), r: Slot<BlobFixed, BlobSoft>): ExportBlob {
    ExportBlob(r.fixed.id, key.0, key.1, r.soft.contentType, Base64.Encode(r.soft.data))
  }

  function CollectionOut(id: Id, r: Named<CollectionDetails>): ExportCollection {
    ExportCollection(id, r.key, r.details.description, r.createdAt, r.details.updatedAt)
  }

  function MemberOut(key: (Id, Id), r: Slot<(), Time>): ExportMember {
    ExportMember(key.0, key.1, r.soft)
  }

  function NoteOut(id: Id, r: NoteRow): ExportNote {
    ExportNote(id, r.body, r.status, r.targetId, r.snapshotId, r.collectionId, r.graphNodeId, Some(r.refs))
  }

  function ViewOut(id: Id, r: ViewRow): ExportView {
    ExportView(id, r.name, r.body, r.targetId, r.snapshotId, r.compareSnapshotId, Some(r.pinned))
  }

  function WebhookOut(id: Id, r: Slot<Time, WebhookBody>): ExportWebhook {
    ExportWebhook(id, r.soft.name, r.soft.kind, r.soft.url, Some(r.soft.config), r.soft.enabled, r.fixed,
        r.soft.updatedAt)
  }

  /** Anything but an object is left out of the bundle. */
  function SettingsOut(s: Option<SettingsRow>): Option<Document> {
    if s.Some? && s.value.value.Obj? then Some(s.value.value.fields) else None
  }

  /** `items` holds one item for each key, the one `out` makes. */
  ghost predicate Lists<K(!new), R(!new), X(!new)>(rows: map<K, R>, items: seq<X>, key: X -> K, out: (K, R) -> X) {
    && (forall i, j :: 0 <= i < j < |items| ==> key(items[i]) != key(items[j]))
    && (forall k :: k in rows <==> exists j :: 0 <= j < |items| && key(items[j]) == k)
    && (forall j :: 0 <= j < |items| ==> key(items[j]) in rows && items[j] == out(key(items[j]), rows[key(items[j])]))
  }

  /** And the items come in the order of their rows; rows neither of which is before the other in any order. */
  ghost predicate ListsInOrder<K(!new), R(!new), X(!new)>(rows: map<K, R>, items: seq<X>, key: X -> K,
      out: (K, R) -> X, before: (R, R) -> bool) {
    && Lists(rows, items, key, out)
    && forall i, j :: 0 <= i < j < |items| ==> !before(rows[key(items[j])], rows[key(items[i])])
  }

  function TargetId(x: ExportTarget): Id { x.id }
  function SnapshotId(x: ExportSnapshot): Id { x.id }
  function BlobKey(x: ExportBlob): (Id, string) { (x.snapshotId, x.kind) }
  function CollectionId(x: ExportCollection): Id { x.id }
  function MemberKey(x: ExportMember): (Id, Id) { (x.collectionId, x.targetId) }
  function NoteId(x: ExportNote): Id { x.id }
  function ViewId(x: ExportView): Id { x.id }
  function WebhookId(x: ExportWebhook): Id { x.id }

  // The orders of the queries.

  predicate TargetBefore(a: Named<TargetDetails>, b: Named<TargetDetails>) { a.createdAt < b.createdAt }
  predicate SnapshotBefore(a: SnapshotRow, b: SnapshotRow) { a.body.scannedAt < b.body.scannedAt }
  predicate BlobBefore(a: Slot<BlobFixed, BlobSoft>, b: Slot<BlobFixed, BlobSoft>) {
    a.fixed.createdAt < b.fixed.createdAt
  }

  predicate MemberBefore(a: Slot<(), Time>, b: Slot<(), Time>) { a.soft < b.soft }
  predicate NoteBefore(a: NoteRow, b: NoteRow) { a.body.updatedAt < b.body.updatedAt }
  predicate ViewBefore(a: ViewRow, b: ViewRow) { a.body.updatedAt < b.body.updatedAt }

  function CollectionName(r: Named<CollectionDetails>): string { r.key }
  function WebhookName(r: Slot<Time, WebhookBody>): string { r.soft.name }

  function CollectionBefore(nameBefore: (string, string) -> bool)
    : (Named<CollectionDetails>, Named<CollectionDetails>) -> bool
  {
    Sorting.OrderBy(nameBefore, CollectionName)
  }

  function WebhookBefore(nameBefore: (string, string) -> bool)
    : (Slot<Time, WebhookBody>, Slot<Time, WebhookBody>) -> bool
  {
    Sorting.OrderBy(nameBefore, WebhookName)
  }

  /** `nameBefore` is the database's collation. */
  datatype ExportOptions = ExportOptions(includeBlobs: bool, includeConfig: bool, nameBefore: (string, string) -> bool)

  /** `b` is an export of `t`: every row once, ordered as the queries order them. */
  ghost predicate IsExport(t: Tables, opts: ExportOptions, b: ExportBundle) {
    && b.formatVersion == FORMAT_VERSION
    && ListsInOrder(t.targets, b.targets, TargetId, TargetOut, TargetBefore)
    && ListsInOrder(t.snapshots, b.snapshots, SnapshotId, SnapshotOut, SnapshotBefore)
    && (if opts.includeBlobs then ListsInOrder(t.blobs, b.blobs, BlobKey, BlobOut, BlobBefore) else b.blobs == [])
    && ListsInOrder(t.collections, b.collections, CollectionId, CollectionOut, CollectionBefore(opts.nameBefore))
    && ListsInOrder(t.members, b.members, MemberKey, MemberOut, MemberBefore)
    && ListsInOrder(t.notes, b.notes, NoteId, NoteOut, NoteBefore)
    && ListsInOrder(t.views, b.views, ViewId, ViewOut, ViewBefore)
    && (if opts.includeConfig
        then ListsInOrder(t.webhooks, b.webhooks, WebhookId, WebhookOut, WebhookBefore(opts.nameBefore))
            && b.settings == SettingsOut(t.settings)
        else b.webhooks == [] && b.settings == None)
  }

  // ---- Import: item to row ----

  /** The clock of the transaction and the two library functions the import calls. */
  datatype Env = Env(now: Time, normalizeHost: string -> string, foldCase: string -> string)

  function TargetItem(env: Env, x: ExportTarget): NamedItem<TargetDetails> {
    var normalized := if x.normalizedHost == "" then env.normalizeHost(x.host) else x.normalizedHost;
    NamedItem(x.id, Named(x.host, x.createdAt, TargetDetails(Some(normalized), Some(OrElse(x.tags, [])))))
  }

  function TargetItems(env: Env, xs: seq<ExportTarget>): seq<NamedItem<TargetDetails>> {
    Map((x: ExportTarget) => TargetItem(env, x), xs)
  }

  /** A snapshot of an unknown target is passed over. */
  function SnapshotItem(idMap: map<Id, Id>, x: ExportSnapshot): ByIdItem<SnapshotRow> {
    ByIdItem(x.id,
      if x.targetId !in idMap then None
      else Some(SnapshotRow(idMap[x.targetId], x.body, OrElse(x.rawData, map[]), Some(OrElse(x.changes, [])),
                            Some(OrElse(x.changeDetails, [])), Some(x.clientIp))))
  }

  function SnapshotItems(idMap: map<Id, Id>, xs: seq<ExportSnapshot>): seq<ByIdItem<SnapshotRow>> {
    Map((x: ExportSnapshot) => SnapshotItem(idMap, x), xs)
  }

  predicate Decodes(x: ExportBlob) {
    Base64.GoDecode(x.dataBase64).Some?
  }

  function BlobItem(now: Time, x: ExportBlob): PutItem<(Id, string), BlobFixed, BlobSoft> {
    PutItem((x.snapshotId, x.kind),
      Slot(BlobFixed(x.id, now), BlobSoft(x.contentType, OrElse(Base64.GoDecode(x.dataBase64), []))))
  }

  function BlobItems(now: Time, xs: seq<ExportBlob>): seq<PutItem<(Id, string), BlobFixed, BlobSoft>> {
    Map((x: ExportBlob) => BlobItem(now, x), xs)
  }

  function CollectionItem(x: ExportCollection): NamedItem<CollectionDetails> {
    NamedItem(x.id, Named(x.name, x.createdAt, CollectionDetails(x.description, x.updatedAt)))
  }

  function CollectionItems(xs: seq<ExportCollection>): seq<NamedItem<CollectionDetails>> {
    Map(CollectionItem, xs)
  }

  /** Memberships with an unknown end are passed over. */
  function MemberItems(collections: map<Id, Id>, targets: map<Id, Id>, xs: seq<ExportMember>)
    : seq<PutItem<(Id, Id), (), Time>>
  {
    if xs == [] then []
    else
      var x := xs[|xs| - 1];
      MemberItems(collections, targets, xs[..|xs| - 1]) +
      if x.collectionId in collections && x.targetId in targets
      then [PutItem((collections[x.collectionId], targets[x.targetId]), Slot((), x.addedAt))] else []
  }

  /** A membership has no column that an upsert keeps. */
  lemma NothingFixed(r: Slot<(), Time>)
    ensures r == Slot((), r.soft)
  {
    match r.fixed
    case () =>
  }

  /** remapOptionalUUID: an id that was not remapped stays. */
  function Remap(id: Option<Id>, mapping: map<Id, Id>): Option<Id> {
    if id.Some? && id.value in mapping then Some(mapping[id.value]) else id
  }

  function NoteItem(collections: map<Id, Id>, targets: map<Id, Id>, x: ExportNote): ByIdItem<NoteRow> {
    ByIdItem(x.id,
        Some(NoteRow(x.body, x.status, Remap(x.targetId, targets), x.snapshotId, Remap(x.collectionId, collections),
        x.graphNodeId, OrElse(x.refs, []))))
  }

  function NoteItems(collections: map<Id, Id>, targets: map<Id, Id>, xs: seq<ExportNote>): seq<ByIdItem<NoteRow>> {
    Map((x: ExportNote) => NoteItem(collections, targets, x), xs)
  }

  function ViewItem(targets: map<Id, Id>, x: ExportView): ByIdItem<ViewRow> {
    ByIdItem(x.id,
        Some(ViewRow(x.name, x.body, Remap(x.targetId, targets), x.snapshotId, x.compareSnapshotId,
        OrElse(x.pinned, map[]))))
  }

  function ViewItems(targets: map<Id, Id>, xs: seq<ExportView>): seq<ByIdItem<ViewRow>> {
    Map((x: ExportView) => ViewItem(targets, x), xs)
  }

  function WebhookItem(x: ExportWebhook): PutItem<Id, Time, WebhookBody> {
    PutItem(x.id,
        Slot(x.createdAt, WebhookBody(x.name, x.kind, x.url, OrElse(x.config, map[]), x.enabled, x.updatedAt)))
  }

  function WebhookItems(xs: seq<ExportWebhook>): seq<PutItem<Id, Time, WebhookBody>> {
    Map(WebhookItem, xs)
  }

  // ---- The import ----

  datatype ImportResult = ImportResult(
    targetsImported: nat, targetsSkipped: nat, snapshotsImported: nat, snapshotsSkipped: nat, blobsImported: nat,
    collectionsImported: nat, collectionsSkipped: nat, membersImported: nat, notesImported: nat, notesSkipped: nat,
    viewsImported: nat, viewsSkipped: nat, webhooksImported: nat, settingsImported: bool)

  const NothingImported := ImportResult(0, 0, 0, 0, 0, 0, 0, 0, 0, 0, 0, 0, 0, false)

  /** What each loop of the import leaves behind. */
  datatype Phases = Phases(
    targets: NamedState<TargetDetails>,
    snapshots: ByIdState<SnapshotRow>,
    blobs: BlobRows,
    collections: NamedState<CollectionDetails>,
    members: MemberRows,
    notes: ByIdState<NoteRow>,
    views: ByIdState<ViewRow>,
    webhooks: map<Id, Slot<Time, WebhookBody>>)

  /** One blob: content that does not decode fails like a broken constraint. */
  ghost function StepBlob(now: Time, snapshots: set<Id>, rows: BlobRows, x: ExportBlob)
    : Result<BlobRows, ImportError>
  {
    if !Decodes(x) then Err(Aborted) else StepPut(BlobsOk(snapshots), rows, BlobItem(now, x))
  }

  ghost function BlobStep(now: Time, snapshots: set<Id>)
    : (BlobRows, ExportBlob) -> Result<BlobRows, ImportError>
  {
    (rows: BlobRows, x: ExportBlob) => StepBlob(now, snapshots, rows, x)
  }

  ghost function PutBlobs(now: Time, snapshots: set<Id>, rows: BlobRows, xs: seq<ExportBlob>)
    : Result<BlobRows, ImportError>
  {
    Fold(BlobStep(now, snapshots), rows, xs)
  }

  ghost function TargetPhase(env: Env, t: Tables, b: ExportBundle, p: Policy)
    : Result<NamedState<TargetDetails>, ImportError>
  {
    MergeNamed(p, t.targets, TargetItems(env, b.targets))
  }

  ghost function SnapshotPhase(t: Tables, b: ExportBundle, p: Policy, ts: NamedState<TargetDetails>)
    : Result<ByIdState<SnapshotRow>, ImportError>
  {
    MergeById(p, SnapshotsOk(ts.rows.Keys), t.snapshots, SnapshotItems(ts.idMap, b.snapshots))
  }

  ghost function BlobPhase(env: Env, t: Tables, b: ExportBundle, sn: ByIdState<SnapshotRow>)
    : Result<BlobRows, ImportError>
  {
    PutBlobs(env.now, sn.rows.Keys, t.blobs, b.blobs)
  }

  ghost function CollectionPhase(t: Tables, b: ExportBundle, p: Policy)
    : Result<NamedState<CollectionDetails>, ImportError>
  {
    MergeNamed(p, t.collections, CollectionItems(b.collections))
  }

  ghost function MemberPhase(t: Tables, b: ExportBundle, ts: NamedState<TargetDetails>,
                             co: NamedState<CollectionDetails>)
    : Result<MemberRows, ImportError>
  {
    PutAll(MembersOk(co.rows.Keys, ts.rows.Keys), t.members, MemberItems(co.idMap, ts.idMap, b.members))
  }

  ghost function NotePhase(t: Tables, b: ExportBundle, p: Policy, ts: NamedState<TargetDetails>,
                           sn: ByIdState<SnapshotRow>, co: NamedState<CollectionDetails>)
    : Result<ByIdState<NoteRow>, ImportError>
  {
    MergeById(p, NotesOk(ts.rows.Keys, sn.rows.Keys, co.rows.Keys), t.notes, NoteItems(co.idMap, ts.idMap, b.notes))
  }

  ghost function ViewPhase(t: Tables, b: ExportBundle, p: Policy, ts: NamedState<TargetDetails>,
                           sn: ByIdState<SnapshotRow>)
    : Result<ByIdState<ViewRow>, ImportError>
  {
    MergeById(p, ViewsOk(ts.rows.Keys, sn.rows.Keys), t.views, ViewItems(ts.idMap, b.views))
  }

  ghost function WebhookPhase(t: Tables, b: ExportBundle): Result<map<Id, Slot<Time, WebhookBody>>, ImportError> {
    PutAll(WebhooksOk(), t.webhooks, WebhookItems(b.webhooks))
  }

  ghost function RunPhases(env: Env, t: Tables, b: ExportBundle, p: Policy): Result<Phases, ImportError> {
    var ts :- TargetPhase(env, t, b, p);
    var sn :- SnapshotPhase(t, b, p, ts);
    var bl :- BlobPhase(env, t, b, sn);
    var co :- CollectionPhase(t, b, p);
    var me :- MemberPhase(t, b, ts, co);
    var no :- NotePhase(t, b, p, ts, sn, co);
    var vi :- ViewPhase(t, b, p, ts, sn);
    var we :- WebhookPhase(t, b);
    Ok(Phases(ts, sn, bl, co, me, no, vi, we))
  }

  function SettingsAfter(env: Env, t: Tables, b: ExportBundle): Option<SettingsRow> {
    if b.settings.Some? then Some(SettingsRow(Obj(b.settings.value), env.now)) else t.settings
  }

  function TablesAfter(env: Env, t: Tables, b: ExportBundle, ph: Phases): Tables {
    Tables(ph.targets.rows, ph.snapshots.rows, ph.blobs, ph.collections.rows, ph.members, ph.notes.rows, ph.views.rows,
        ph.webhooks,
        SettingsAfter(env, t, b))
  }

  function ResultOf(b: ExportBundle, ph: Phases): ImportResult {
    ImportResult(ph.targets.imported, ph.targets.skipped, ph.snapshots.imported, ph.snapshots.skipped, |b.blobs|,
                 ph.collections.imported, ph.collections.skipped,
                 |MemberItems(ph.collections.idMap, ph.targets.idMap, b.members)|,
                 ph.notes.imported, ph.notes.skipped, ph.views.imported, ph.views.skipped, |b.webhooks|,
                 b.settings.Some?)
  }

  /** The policy named by the request; the empty name means overwrite. */
  function PolicyOf(env: Env, conflict: string): Option<Policy> {
    var name := env.foldCase(conflict);
    if name == "" || name == "overwrite" then Some(Overwrite) else if name == "skip" then Some(Skip) else None
  }

  /** ImportBundle: the committed tables and the counts, or an error and no change. */
  ghost function Import(env: Env, t: Tables, bundle: Option<ExportBundle>, conflict: string)
    : Result<(Tables, ImportResult), ImportError>
  {
    if bundle.None? then Err(MissingBundle)
    else if bundle.value.formatVersion != FORMAT_VERSION then Err(BadVersion)
    else if PolicyOf(env, conflict).None? then Err(BadPolicy)
    else
      var ph :- RunPhases(env, t, bundle.value, PolicyOf(env, conflict).value);
      Ok((TablesAfter(env, t, bundle.value, ph), ResultOf(bundle.value, ph)))
  }
}
