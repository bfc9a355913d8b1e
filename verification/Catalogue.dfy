/**
 The metadata store of one node as a value: the `files` table, the append-only
 `sync_events` log, and the four operations that write both in one transaction (db.rs).

 What is kept of SQLite: a row is unique by (folder, path) and by `file_id`, rows and
 events refer to a registered folder, event numbers are given out by one global counter,
 and a failed transaction leaves nothing behind.
 */
module Catalogue {
  import opened Outcomes
  import opened Paths

  datatype EventKind = Upsert | Delete

  datatype SyncEvent = SyncEvent(
    seqNo: nat, folder: string, fileId: string, path: string, kind: EventKind,
    version: nat, size: nat, hash: string, origin: string, modifiedAt: int)

  datatype FileRecord = FileRecord(
    fileId: string, size: nat, hash: string, version: nat, origin: string,
    modifiedAt: int, isDeleted: bool, tombstoneAt: Option<int>)

  datatype Key = Key(folder: string, path: string)

  datatype Db = Db(folders: set<string>, files: map<Key, FileRecord>, log: seq<SyncEvent>, nextSeq: nat)

  datatype DbError = NoSuchFolder | FileIdInUse

  const EMPTY := Db({}, map[], [], 1)

  /** The key of the row an event speaks about, whatever spelling of the path it carries. */
  function KeyOf(e: SyncEvent): (k: Key) {
    Key(e.folder, Normalize(e.path))
  }

  /** The key of a logged event; the log holds normalized paths. */
  function At(e: SyncEvent): (k: Key) {
    Key(e.folder, e.path)
  }

  function GetFile(db: Db, folder: string, path: string): (row: Option<FileRecord>) {
    var k := Key(folder, Normalize(path));
    if k in db.files then Some(db.files[k]) else None
  }

  /** `file_id` is the primary key: no two rows share one. */
  predicate IdTaken(db: Db, k: Key, fileId: string) {
    exists other :: other in db.files && other != k && db.files[other].fileId == fileId
  }

  function Append(db: Db, e: SyncEvent): (db': Db) {
    db.(log := db.log + [e.(seqNo := db.nextSeq)], nextSeq := db.nextSeq + 1)
  }

  /** INSERT ... ON CONFLICT(folder_id, relative_path) DO UPDATE. */
  function PutRow(db: Db, k: Key, row: FileRecord): (r: Result<Db, DbError>) {
    if IdTaken(db, k, row.fileId) then Err(FileIdInUse)
    else if k.folder !in db.folders then Err(NoSuchFolder)
    else Ok(db.(files := db.files[k := row]))
  }

  function AddFolder(db: Db, folder: string): (db': Db) {
    db.(folders := db.folders + {folder})
  }

  function FreshId(hash: string): (id: string) {
    "f_" + if |hash| > 16 then hash[..16] else hash
  }

  function LocalUpsertEvent(db: Db, folder: string, path: string, size: nat, hash: string, node: string, now: int)
    : (e: SyncEvent)
  {
    var (fileId, version) :=
      match GetFile(db, folder, path)
      case Some(row) => (row.fileId, row.version + 1)
      case None => (FreshId(hash), 1);
    SyncEvent(db.nextSeq, folder, fileId, Normalize(path), Upsert, version, size, hash, node, now)
  }

  function LiveRow(e: SyncEvent): (row: FileRecord) {
    FileRecord(e.fileId, e.size, e.hash, e.version, e.origin, e.modifiedAt, false, None)
  }

  function LocalUpsert(db: Db, folder: string, path: string, size: nat, hash: string, node: string, now: int)
    : (r: Result<(Db, SyncEvent), DbError>)
  {
    var e := LocalUpsertEvent(db, folder, path, size, hash, node, now);
    match PutRow(db, Key(folder, Normalize(path)), LiveRow(e))
    case Ok(put) => Ok((Append(put, e), e))
    case Err(error) => Err(error)
  }

  function LocalDelete(db: Db, folder: string, path: string, node: string, now: int): (r: (Db, Option<SyncEvent>)) {
    match GetFile(db, folder, path)
    case None => (db, None)
    case Some(row) =>
      if row.isDeleted then (db, None)
      else
        var k := Key(folder, Normalize(path));
        var dead := row.(isDeleted := true, tombstoneAt := Some(now), version := row.version + 1,
                         modifiedAt := now, origin := node);
        var e := SyncEvent(db.nextSeq, folder, row.fileId, k.path, Delete, row.version + 1, 0, row.hash, node, now);
        (Append(db.(files := db.files[k := dead]), e), Some(e))
  }

  predicate SameEntry(x: SyncEvent, e: SyncEvent) {
    At(x) == At(e) && x.version == e.version && x.kind == e.kind && (e.kind == Upsert ==> x.hash == e.hash)
  }

  /** The log already holds this upsert (for a tombstone: some delete of the path at this version). */
  predicate AlreadyLogged(log: seq<SyncEvent>, e: SyncEvent) {
    exists i :: 0 <= i < |log| && SameEntry(log[i], e)
  }

  function AppendOnce(db: Db, e: SyncEvent): (db': Db) {
    if AlreadyLogged(db.log, e) then db else Append(db, e)
  }

  /** The event as it is stored. */
  function Normal(e: SyncEvent): (e': SyncEvent) {
    e.(path := Normalize(e.path))
  }

  /** The remote operations on a normalized event. */
  function PutRemote(db: Db, e: SyncEvent): (r: Result<Db, DbError>)
    requires e.kind == Upsert
  {
    match PutRow(db, At(e), LiveRow(e))
    case Ok(put) => Ok(AppendOnce(put, e))
    case Err(error) => Err(error)
  }

  function Tombstone(row: FileRecord, e: SyncEvent, now: int): (row': FileRecord) {
    row.(isDeleted := true, tombstoneAt := Some(now), version := e.version, modifiedAt := e.modifiedAt,
         origin := e.origin)
  }

  function BuryRemote(db: Db, e: SyncEvent, now: int): (r: Result<Db, DbError>)
    requires e.kind == Delete
  {
    if !AlreadyLogged(db.log, e) && e.folder !in db.folders then Err(NoSuchFolder)
    else
      var updated :=
        if At(e) in db.files then db.(files := db.files[At(e) := Tombstone(db.files[At(e)], e, now)]) else db;
      Ok(AppendOnce(updated, e.(size := 0)))
  }

  function RemoteUpsert(db: Db, e: SyncEvent): (r: Result<Db, DbError>)
    requires e.kind == Upsert
  {
    PutRemote(db, Normal(e))
  }

  function RemoteDelete(db: Db, e: SyncEvent, now: int): (r: Result<Db, DbError>)
    requires e.kind == Delete
  {
    BuryRemote(db, Normal(e), now)
  }

  // ---------- reading the log ----------

  /** The folder's events numbered above `since`, oldest first. */
  function TailOf(log: seq<SyncEvent>, folder: string, since: nat): (tail: seq<SyncEvent>) {
    if log == [] then []
    else
      var last := log[|log| - 1];
      TailOf(log[..|log| - 1], folder, since) + if last.folder == folder && last.seqNo > since then [last] else []
  }

  /** COALESCE(MAX(event_seq), 0) over the folder's events. */
  function LatestSeq(log: seq<SyncEvent>, folder: string): (latest: nat) {
    if log == [] then 0
    else
      var rest := LatestSeq(log[..|log| - 1], folder);
      var last := log[|log| - 1];
      if last.folder == folder && last.seqNo > rest then last.seqNo else rest
  }

  const MANIFEST_LIMIT := 500

  function Take<T>(s: seq<T>, limit: nat): (front: seq<T>)
    ensures front <= s && |front| == if |s| < limit then |s| else limit
  {
    if |s| <= limit then s else s[..limit]
  }

  function EventsSince(db: Db, folder: string, since: nat, limit: nat): (delta: (seq<SyncEvent>, nat)) {
    (Take(TailOf(db.log, folder, since), limit), LatestSeq(db.log, folder))
  }

  // ---------- the last event of every path ----------

  /** The catalogue the log stands for: every path's last event. */
  ghost function Replay(log: seq<SyncEvent>): (last: map<Key, SyncEvent>) {
    if log == [] then map[]
    else Replay(log[..|log| - 1])[At(log[|log| - 1]) := log[|log| - 1]]
  }

  /** (version, is-delete) in lexicographic order, as one number. */
  function Rank(e: SyncEvent): (rank: nat) {
    2 * e.version + if e.kind == Delete then 1 else 0
  }

  function RowRank(row: FileRecord): (rank: nat) {
    2 * row.version + if row.isDeleted then 1 else 0
  }

  /** The row is what the event says: all fields, and size and hash while the row is live. */
  ghost predicate Matches(row: FileRecord, e: SyncEvent) {
    row.fileId == e.fileId && row.version == e.version && row.origin == e.origin &&
    row.modifiedAt == e.modifiedAt && row.isDeleted == (e.kind == Delete) &&
    (!row.isDeleted ==> row.hash == e.hash && row.size == e.size && row.tombstoneAt == None)
  }

  ghost predicate UniqueIds(files: map<Key, FileRecord>) {
    forall j, k :: j in files && k in files && files[j].fileId == files[k].fileId ==> j == k
  }

  ghost predicate Numbered(db: Db) {
    db.nextSeq == |db.log| + 1 && forall i :: 0 <= i < |db.log| ==> db.log[i].seqNo == i + 1
  }

  ghost predicate Schema(db: Db) {
    UniqueIds(db.files) && Numbered(db) &&
    (forall k :: k in db.files ==> k.folder in db.folders && IsNormal(k.path)) &&
    (forall i :: 0 <= i < |db.log| ==> db.log[i].folder in db.folders)
  }

  /** Successive entries of a path strictly increase in (version, is-delete). */
  ghost predicate Progressive(log: seq<SyncEvent>) {
    forall i, j :: 0 <= i < j < |log| && At(log[i]) == At(log[j]) ==> Rank(log[i]) < Rank(log[j])
  }

  /** The catalogue is the last-event-per-path fold of the log. */
  ghost predicate Materialised(files: map<Key, FileRecord>, log: seq<SyncEvent>) {
    var last := Replay(log);
    files.Keys == last.Keys && forall k :: k in files ==> Matches(files[k], last[k])
  }

  ghost predicate Inv(db: Db) {
    Schema(db) && Progressive(db.log) && Materialised(db.files, db.log)
  }

  lemma ReplayAppend(log: seq<SyncEvent>, e: SyncEvent)
    ensures Replay(log + [e]) == Replay(log)[At(e) := e]
  {
    assert (log + [e])[..|log|] == log;
  }

  lemma {:induction false} ReplayFrom(log: seq<SyncEvent>, k: Key) returns (i: nat)
    requires k in Replay(log)
    ensures i < |log| && log[i] == Replay(log)[k] && At(log[i]) == k
    ensures forall j :: i < j < |log| ==> At(log[j]) != k
  {
    var n := |log| - 1;
    if At(log[n]) == k {
      i := n;
    } else {
      i := ReplayFrom(log[..n], k);
    }
  }

  /** Every entry is at or below the last entry of its path. */
  lemma {:induction false} ReplayIsTop(log: seq<SyncEvent>, i: nat)
    requires i < |log|
    ensures At(log[i]) in Replay(log)
    ensures Progressive(log) ==> Rank(log[i]) <= Rank(Replay(log)[At(log[i])])
  {
    var n := |log| - 1;
    if i < n && At(log[i]) != At(log[n]) {
      ReplayIsTop(log[..n], i);
    }
  }

  lemma ProgressiveAppend(log: seq<SyncEvent>, e: SyncEvent)
    requires Progressive(log)
    requires At(e) in Replay(log) ==> Rank(Replay(log)[At(e)]) < Rank(e)
    ensures Progressive(log + [e])
  {
    forall i | 0 <= i < |log| && At(log[i]) == At(e) ensures Rank(log[i]) < Rank(e) {
      ReplayIsTop(log, i);
    }
  }

  lemma MaterialisedAppend(files: map<Key, FileRecord>, log: seq<SyncEvent>, row: FileRecord, e: SyncEvent)
    requires Materialised(files, log) && Matches(row, e)
    ensures Materialised(files[At(e) := row], log + [e])
  {
    ReplayAppend(log, e);
  }

  lemma SchemaAppend(db: Db, row: FileRecord, e: SyncEvent)
    requires Schema(db) && IsNormal(e.path) && e.folder in db.folders && !IdTaken(db, At(e), row.fileId)
    ensures Schema(Append(db.(files := db.files[At(e) := row]), e))
  {
    var files' := db.files[At(e) := row];
    forall j, k | j in files' && k in files' && files'[j].fileId == files'[k].fileId ensures j == k {
    }
  }

  /** The one way the invariant is kept: a row and its matching event written together, above the old row. */
  lemma WriteKeepsInv(db: Db, row: FileRecord, e: SyncEvent)
    requires Inv(db)
    requires IsNormal(e.path) && e.folder in db.folders
    requires !IdTaken(db, At(e), row.fileId) && Matches(row, e)
    requires At(e) in db.files ==> RowRank(db.files[At(e)]) < Rank(e)
    ensures Inv(Append(db.(files := db.files[At(e) := row]), e))
  {
    var stored := e.(seqNo := db.nextSeq);
    SchemaAppend(db, row, e);
    if At(e) in db.files {
      assert Matches(db.files[At(e)], Replay(db.log)[At(e)]);
    }
    ProgressiveAppend(db.log, stored);
    MaterialisedAppend(db.files, db.log, row, stored);
  }

  lemma NotLoggedAbove(db: Db, e: SyncEvent)
    requires Inv(db)
    requires At(e) in db.files ==> RowRank(db.files[At(e)]) < Rank(e)
    ensures !AlreadyLogged(db.log, e)
  {
    forall i | 0 <= i < |db.log| ensures !SameEntry(db.log[i], e) {
      ReplayIsTop(db.log, i);
    }
  }

  /** When an upsert may overwrite what is stored under its key: nothing there, a lower version, or itself. */
  predicate Admits(db: Db, k: Key, row: FileRecord) {
    k !in db.files || db.files[k].version < row.version || db.files[k] == row
  }

  lemma PutRemoteKeepsInvIff(db: Db, e: SyncEvent)
    requires Inv(db) && e.kind == Upsert && IsNormal(e.path) && PutRemote(db, e).Ok?
    ensures Inv(PutRemote(db, e).value) <==> Admits(db, At(e), LiveRow(e))
  {
    var k := At(e);
    var db' := PutRemote(db, e).value;
    if k !in db.files || db.files[k].version < e.version {
      NotLoggedAbove(db, e);
      WriteKeepsInv(db, LiveRow(e), e);
    } else if db.files[k] == LiveRow(e) {
      RewriteIsIdle(db, e);
    } else if AlreadyLogged(db.log, e) {
      assert Matches(db.files[k], Replay(db.log)[k]);
      assert db'.files[k] == LiveRow(e) && db'.log == db.log;
    } else {
      var i := ReplayFrom(db.log, k);
      assert db'.log[i] == db.log[i] && At(db'.log[|db.log|]) == k;
    }
  }

  lemma RewriteIsIdle(db: Db, e: SyncEvent)
    requires Inv(db) && e.kind == Upsert && PutRemote(db, e).Ok?
    requires At(e) in db.files && db.files[At(e)] == LiveRow(e)
    ensures PutRemote(db, e).value == db
  {
    var i := ReplayFrom(db.log, At(e));
    assert SameEntry(db.log[i], e);
  }

  lemma BuryRemoteKeepsInv(db: Db, e: SyncEvent, now: int)
    requires Inv(db) && e.kind == Delete && IsNormal(e.path)
    requires At(e) in db.files && e.fileId == db.files[At(e)].fileId && RowRank(db.files[At(e)]) < Rank(e)
    ensures BuryRemote(db, e, now).Ok? && Inv(BuryRemote(db, e, now).value)
  {
    NotLoggedAbove(db, e.(size := 0));
    NotLoggedAbove(db, e);
    WriteKeepsInv(db, Tombstone(db.files[At(e)], e, now), e.(size := 0));
  }

  lemma LocalUpsertKeepsInv(db: Db, folder: string, path: string, size: nat, hash: string, node: string, now: int)
    requires Inv(db) && LocalUpsert(db, folder, path, size, hash, node, now).Ok?
    ensures Inv(LocalUpsert(db, folder, path, size, hash, node, now).value.0)
  {
    NormalizeIsProjection(path);
    var e := LocalUpsertEvent(db, folder, path, size, hash, node, now);
    WriteKeepsInv(db, LiveRow(e), e);
  }

  lemma LocalDeleteKeepsInv(db: Db, folder: string, path: string, node: string, now: int)
    requires Inv(db)
    ensures Inv(LocalDelete(db, folder, path, node, now).0)
  {
    NormalizeIsProjection(path);
    var (db', e) := LocalDelete(db, folder, path, node, now);
    if e.Some? {
      WriteKeepsInv(db, db'.files[At(e.value)], e.value);
    }
  }

  /** A local edit is refused exactly for an unregistered folder, or a new path whose content id another row holds. */
  lemma LocalUpsertSucceedsIff(db: Db, folder: string, path: string, size: nat, hash: string, node: string, now: int)
    requires Inv(db)
    ensures LocalUpsert(db, folder, path, size, hash, node, now).Ok? <==>
              folder in db.folders &&
              (GetFile(db, folder, path).Some? || forall k :: k in db.files ==> db.files[k].fileId != FreshId(hash))
  {}
}
