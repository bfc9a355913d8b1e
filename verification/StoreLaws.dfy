/**
 What the four writing operations and the log queries of the store promise, as relations between the store before,
 the store after, and the result (db.rs). They are stated of rows and log entries only; `Catalogue` says how
 the operations work, and `Store` has the object whose methods keep these promises.
 */
module StoreLaws {
  import opened Outcomes
  import opened Paths
  import opened Catalogue

  ghost predicate OnlyRowChanges(a: Db, b: Db, k: Key) {
    b.folders == a.folders &&
    forall j :: j != k ==> (j in b.files <==> j in a.files) && (j in a.files ==> b.files[j] == a.files[j])
  }

  /** One entry is appended, under the next number. */
  predicate Appends(a: Db, b: Db, e: SyncEvent) {
    b.log == a.log + [e] && e.seqNo == a.nextSeq && b.nextSeq == a.nextSeq + 1
  }

  // ---------- local edits and deletes ----------

  /** The entry speaks of this row at this path. */
  predicate Records(e: SyncEvent, k: Key, row: FileRecord) {
    e.folder == k.folder && e.path == k.path && e.fileId == row.fileId && e.version == row.version &&
    e.origin == row.origin && e.modifiedAt == row.modifiedAt && e.hash == row.hash
  }

  /** "f_" and the first 16 characters of the hash, or all of a shorter one. */
  predicate IsContentId(id: string, hash: string) {
    |id| == 2 + (if |hash| < 16 then |hash| else 16) && id[0] == 'f' && id[1] == '_' && id[2..] <= hash
  }

  /** What recording a local edit does: the new live row and its entry, or nothing and an error. */
  ghost predicate Edits(a: Db, b: Db, r: Result<SyncEvent, DbError>, k: Key, size: nat, hash: string, node: string,
                        now: int)
  {
    match r
    case Err(_) => b == a
    case Ok(e) =>
      && k in b.files && OnlyRowChanges(a, b, k) && Appends(a, b, e)
      && Records(e, k, b.files[k]) && e.kind == Upsert && e.size == size
      && var row := b.files[k];
      && !row.isDeleted && row.tombstoneAt == None && row.size == size && row.hash == hash
      && row.origin == node && row.modifiedAt == now
      && if k in a.files then row.fileId == a.files[k].fileId && row.version == a.files[k].version + 1
         else IsContentId(row.fileId, hash) && row.version == 1
  }

  /** When an edit is refused: the folder is unknown, or another row has the id it needs. */
  ghost predicate EditRefused(a: Db, k: Key, hash: string) {
    k.folder !in a.folders ||
    exists j :: j in a.files && j != k &&
                if k in a.files then a.files[j].fileId == a.files[k].fileId else IsContentId(a.files[j].fileId, hash)
  }

  lemma ContentIdIsFresh(id: string, hash: string)
    ensures IsContentId(id, hash) <==> id == FreshId(hash)
  {
    if IsContentId(id, hash) {
      assert id == id[..2] + id[2..];
      assert id[..2] == "f_";
    }
  }

  lemma LocalUpsertEdits(db: Db, folder: string, path: string, size: nat, hash: string, node: string, now: int)
    ensures var k, r := Key(folder, Normalize(path)), LocalUpsert(db, folder, path, size, hash, node, now);
            && (r.Err? <==> EditRefused(db, k, hash))
            && Edits(db, if r.Ok? then r.value.0 else db, if r.Ok? then Ok(r.value.1) else Err(r.error), k,
                     size, hash, node, now)
  {
    hide Normalize, FreshId, IsContentId;
    var k := Key(folder, Normalize(path));
    ContentIdIsFresh(FreshId(hash), hash);
    forall j | j in db.files ensures IsContentId(db.files[j].fileId, hash) <==> db.files[j].fileId == FreshId(hash) {
      ContentIdIsFresh(db.files[j].fileId, hash);
    }
  }

  /**
   What recording a local delete does: a live row becomes a tombstone one version up, and its entry is returned;
   anything else is left alone.
   */
  ghost predicate Deletes(a: Db, b: Db, r: Option<SyncEvent>, k: Key, node: string, now: int) {
    (r.Some? <==> k in a.files && !a.files[k].isDeleted) &&
    match r
    case None => b == a
    case Some(e) =>
      && k in b.files && OnlyRowChanges(a, b, k) && Appends(a, b, e)
      && Records(e, k, b.files[k]) && e.kind == Delete && e.size == 0
      && var was, row := a.files[k], b.files[k];
      && row.isDeleted && row.tombstoneAt == Some(now) && row.version == was.version + 1
      && row.modifiedAt == now && row.origin == node
      && row.fileId == was.fileId && row.hash == was.hash && row.size == was.size
  }

  lemma LocalDeleteDeletes(db: Db, folder: string, path: string, node: string, now: int)
    ensures var out := LocalDelete(db, folder, path, node, now);
            Deletes(db, out.0, out.1, Key(folder, Normalize(path)), node, now)
  {
    hide Normalize;
  }

  // ---------- remote upserts and deletes ----------

  /** The log holds an upsert of this path, version and content. */
  ghost predicate HasUpsert(log: seq<SyncEvent>, k: Key, version: nat, hash: string) {
    exists x :: x in log && x.folder == k.folder && x.path == k.path && x.kind == Upsert && x.version == version &&
                x.hash == hash
  }

  ghost predicate HasDelete(log: seq<SyncEvent>, k: Key, version: nat) {
    exists x :: x in log && x.folder == k.folder && x.path == k.path && x.kind == Delete && x.version == version
  }

  /** The entry that stands for `e` at this path: its own fields, under the number it gets. */
  predicate Retold(x: SyncEvent, e: SyncEvent, k: Key, size: nat) {
    x.folder == k.folder && x.path == k.path && x.kind == e.kind && x.fileId == e.fileId && x.version == e.version &&
    x.size == size && x.hash == e.hash && x.origin == e.origin && x.modifiedAt == e.modifiedAt
  }

  /** The entry is appended, unless the log has it. */
  ghost predicate LogsOnce(a: Db, b: Db, present: bool, e: SyncEvent, k: Key, size: nat) {
    if present then b.log == a.log && b.nextSeq == a.nextSeq
    else |b.log| == |a.log| + 1 && Appends(a, b, b.log[|a.log|]) && Retold(b.log[|a.log|], e, k, size)
  }

  /** What taking in a remote upsert does: the row is the event's, and its entry is logged once; or nothing at all. */
  ghost predicate Takes(a: Db, b: Db, error: Option<DbError>, k: Key, e: SyncEvent) {
    (error.Some? <==> k.folder !in a.folders || exists j :: j in a.files && j != k && a.files[j].fileId == e.fileId) &&
    if error.Some? then b == a
    else
      && OnlyRowChanges(a, b, k) && k in b.files
      && b.files[k] == FileRecord(e.fileId, e.size, e.hash, e.version, e.origin, e.modifiedAt, false, None)
      && LogsOnce(a, b, HasUpsert(a.log, k, e.version, e.hash), e, k, e.size)
  }

  /**
   What taking in a remote delete does: a row there is becomes a tombstone, and the entry is logged once; or nothing.
   */
  ghost predicate Buries(a: Db, b: Db, error: Option<DbError>, k: Key, e: SyncEvent, now: int) {
    (error.Some? <==> k.folder !in a.folders && !HasDelete(a.log, k, e.version)) &&
    if error.Some? then b == a
    else
      && OnlyRowChanges(a, b, k) && (k in b.files <==> k in a.files)
      && (k in a.files ==>
            var was, row := a.files[k], b.files[k];
            && row.isDeleted && row.tombstoneAt == Some(now) && row.version == e.version
            && row.modifiedAt == e.modifiedAt && row.origin == e.origin
            && row.fileId == was.fileId && row.hash == was.hash && row.size == was.size)
      && LogsOnce(a, b, HasDelete(a.log, k, e.version), e, k, 0)
  }

  lemma LoggedIsInLog(log: seq<SyncEvent>, e: SyncEvent)
    ensures e.kind == Upsert ==> (AlreadyLogged(log, e) <==> HasUpsert(log, At(e), e.version, e.hash))
    ensures e.kind == Delete ==> (AlreadyLogged(log, e) <==> HasDelete(log, At(e), e.version))
  {
    if AlreadyLogged(log, e) {
      var i :| 0 <= i < |log| && SameEntry(log[i], e);
      assert log[i] in log;
    }
    if e.kind == Upsert && HasUpsert(log, At(e), e.version, e.hash) {
      var x :| x in log && x.folder == e.folder && x.path == e.path && x.kind == Upsert && x.version == e.version &&
               x.hash == e.hash;
      var i :| 0 <= i < |log| && log[i] == x;
      assert SameEntry(log[i], e);
    }
    if e.kind == Delete && HasDelete(log, At(e), e.version) {
      var x :| x in log && x.folder == e.folder && x.path == e.path && x.kind == Delete && x.version == e.version;
      var i :| 0 <= i < |log| && log[i] == x;
      assert SameEntry(log[i], e);
    }
  }

  function ErrorOf<T>(r: Result<T, DbError>): (error: Option<DbError>) {
    match r
    case Ok(_) => None
    case Err(x) => Some(x)
  }

  lemma PutRemoteTakes(db: Db, e: SyncEvent)
    requires e.kind == Upsert
    ensures var r := PutRemote(db, e); Takes(db, if r.Ok? then r.value else db, ErrorOf(r), At(e), e)
  {
    LoggedIsInLog(db.log, e);
    hide AlreadyLogged, HasUpsert;
  }

  lemma BuryRemoteBuries(db: Db, e: SyncEvent, now: int)
    requires e.kind == Delete
    ensures var r := BuryRemote(db, e, now); Buries(db, if r.Ok? then r.value else db, ErrorOf(r), At(e), e, now)
  {
    LoggedIsInLog(db.log, e);
    LoggedIsInLog(db.log, e.(size := 0));
    hide AlreadyLogged, HasDelete;
  }

  // ---------- reading the log ----------

  ghost predicate Ascending(log: seq<SyncEvent>) {
    forall i, j :: 0 <= i < j < |log| ==> log[i].seqNo < log[j].seqNo
  }

  ghost function Wanted(log: seq<SyncEvent>, folder: string, since: nat): (numbers: set<nat>) {
    set e | e in log && e.folder == folder && e.seqNo > since :: e.seqNo
  }

  /** The events are the folder's first ones above `since`, as many as there are or the limit allows, in order. */
  ghost predicate Delivers(log: seq<SyncEvent>, folder: string, since: nat, limit: nat, events: seq<SyncEvent>) {
    var wanted := |Wanted(log, folder, since)|;
    && |events| == (if wanted < limit then wanted else limit)
    && Ascending(events)
    && (forall e :: e in events ==> e in log && e.folder == folder && e.seqNo > since)
    && (events != [] ==>
          forall e :: e in log && e.folder == folder && since < e.seqNo <= events[|events| - 1].seqNo ==> e in events)
  }

  /** 0, or the highest number of the folder's events. */
  ghost predicate IsLatest(log: seq<SyncEvent>, folder: string, latest: nat) {
    (forall e :: e in log && e.folder == folder ==> e.seqNo <= latest) &&
    (latest != 0 ==> exists e :: e in log && e.folder == folder && e.seqNo == latest)
  }

  lemma {:induction false} LatestSeqIsLatest(log: seq<SyncEvent>, folder: string)
    ensures IsLatest(log, folder, LatestSeq(log, folder))
  {
    if log != [] {
      var front, last := log[..|log| - 1], log[|log| - 1];
      LatestSeqIsLatest(front, folder);
      assert log == front + [last];
      if last.folder != folder || last.seqNo <= LatestSeq(front, folder) {
        assert LatestSeq(log, folder) == LatestSeq(front, folder);
      } else {
        assert last in log;
      }
    }
  }

  lemma AscendingFront(log: seq<SyncEvent>)
    requires Ascending(log) && log != []
    ensures var front, last := log[..|log| - 1], log[|log| - 1];
            && log == front + [last] && Ascending(front) && forall e :: e in front ==> e.seqNo < last.seqNo
  {
    var front := log[..|log| - 1];
    forall e | e in front ensures e.seqNo < log[|log| - 1].seqNo {
      var i :| 0 <= i < |front| && front[i] == e;
      assert log[i] == e;
    }
  }

  lemma WantedMore(front: seq<SyncEvent>, last: SyncEvent, folder: string, since: nat)
    requires forall e :: e in front ==> e.seqNo < last.seqNo
    ensures |Wanted(front + [last], folder, since)| ==
              |Wanted(front, folder, since)| + if last.folder == folder && last.seqNo > since then 1 else 0
  {
    var more := front + [last];
    assert forall e :: e in more <==> e in front || e == last;
    if last.folder == folder && last.seqNo > since {
      assert Wanted(more, folder, since) == Wanted(front, folder, since) + {last.seqNo};
      assert last.seqNo !in Wanted(front, folder, since);
    } else {
      assert Wanted(more, folder, since) == Wanted(front, folder, since);
    }
  }

  lemma AscendingMore(s: seq<SyncEvent>, e: SyncEvent)
    requires Ascending(s) && forall x :: x in s ==> x.seqNo < e.seqNo
    ensures Ascending(s + [e])
  {}

  lemma {:induction false} TailMembers(log: seq<SyncEvent>, folder: string, since: nat)
    requires Ascending(log)
    ensures var tail := TailOf(log, folder, since);
            && (forall e :: e in tail <==> e in log && e.folder == folder && e.seqNo > since)
            && Ascending(tail) && |tail| == |Wanted(log, folder, since)|
  {
    hide Ascending, Wanted;
    if log == [] {
      NothingWanted(folder, since);
    } else {
      var front, last := log[..|log| - 1], log[|log| - 1];
      AscendingFront(log);
      TailMembers(front, folder, since);
      WantedMore(front, last, folder, since);
      var tail := TailOf(front, folder, since);
      if last.folder == folder && last.seqNo > since {
        AscendingMore(tail, last);
      } else {
        assert TailOf(log, folder, since) == tail;
      }
    }
  }

  lemma NothingWanted(folder: string, since: nat)
    ensures Ascending([]) && Wanted([], folder, since) == {}
  {}

  /** A log query delivers the folder's next events and its latest number. */
  lemma EventsSinceDelivers(db: Db, folder: string, since: nat, limit: nat)
    requires Ascending(db.log)
    ensures var out := EventsSince(db, folder, since, limit);
            Delivers(db.log, folder, since, limit, out.0) && IsLatest(db.log, folder, out.1)
  {
    TailMembers(db.log, folder, since);
    LatestSeqIsLatest(db.log, folder);
    FrontDelivers(db.log, folder, since, limit, TailOf(db.log, folder, since));
    hide TailOf, LatestSeq;
  }

  lemma FrontDelivers(log: seq<SyncEvent>, folder: string, since: nat, limit: nat, tail: seq<SyncEvent>)
    requires forall e :: e in tail <==> e in log && e.folder == folder && e.seqNo > since
    requires Ascending(tail) && |tail| == |Wanted(log, folder, since)|
    ensures Delivers(log, folder, since, limit, Take(tail, limit))
  {
    hide Wanted;
    var events := Take(tail, limit);
    assert Ascending(events);
    if events != [] {
      var last := events[|events| - 1];
      forall e | e in tail && e.seqNo <= last.seqNo ensures e in events {
        var i :| 0 <= i < |tail| && tail[i] == e;
        assert i < |events|;
        assert events[i] == e;
      }
    }
  }
}
