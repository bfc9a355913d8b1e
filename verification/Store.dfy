/**
 The metadata database as the object the program updates (db.rs). Every method is proved against
 the operation on values in `Catalogue`; a failed call leaves the object as it was.
 */
module Store {
  import opened Outcomes
  import opened Paths
  import opened Catalogue
  import opened StoreLaws

  class MetadataDb {
    var folders: set<string>
    var files: map<Key, FileRecord>
    var log: seq<SyncEvent>
    var nextSeq: nat

    ghost function View(): (db: Db)
      reads this
    {
      Db(folders, files, log, nextSeq)
    }

    constructor ()
      ensures View() == EMPTY
    {
      folders, files, log, nextSeq := {}, map[], [], 1;
    }

    method AddFolder(folder: string)
      modifies this
      ensures View() == Catalogue.AddFolder(old(View()), folder)
      ensures folders == old(folders) + {folder} && files == old(files) && log == old(log) && nextSeq == old(nextSeq)
    {
      folders := folders + {folder};
    }

    method GetFile(folder: string, path: string) returns (r: Option<FileRecord>)
      ensures r == Catalogue.GetFile(View(), folder, path)
      ensures var k := Key(folder, Normalize(path)); r == if k in files then Some(files[k]) else None
    {
      var k := Key(folder, Normalize(path));
      if k in files {
        return Some(files[k]);
      }
      return None;
    }

    method Insert(e: SyncEvent)
      modifies this`log, this`nextSeq
      ensures View() == Append(old(View()), e)
    {
      log := log + [e.(seqNo := nextSeq)];
      nextSeq := nextSeq + 1;
    }

    method UpsertRow(k: Key, row: FileRecord) returns (error: Option<DbError>)
      modifies this`files
      ensures match PutRow(old(View()), k, row)
              case Ok(db) => error == None && View() == db
              case Err(x) => error == Some(x) && View() == old(View())
    {
      if exists other :: other in files && other != k && files[other].fileId == row.fileId {
        return Some(FileIdInUse);
      }
      if k.folder !in folders {
        return Some(NoSuchFolder);
      }
      files := files[k := row];
      return None;
    }

    method RecordLocalUpsert(folder: string, path: string, size: nat, hash: string, node: string, now: int)
      returns (r: Result<SyncEvent, DbError>)
      modifies this
      ensures match LocalUpsert(old(View()), folder, path, size, hash, node, now)
              case Ok(out) => View() == out.0 && r == Ok(out.1)
              case Err(x) => View() == old(View()) && r == Err(x)
      ensures var k := Key(folder, Normalize(path));
              && Edits(old(View()), View(), r, k, size, hash, node, now)
              && (r.Err? <==> EditRefused(old(View()), k, hash))
    {
      LocalUpsertEdits(View(), folder, path, size, hash, node, now);
      var norm := Normalize(path);
      NormalizeIsProjection(path);
      NormalizeIsProjection(norm);
      var existing := GetFile(folder, norm);
      var fileId, version := FreshId(hash), 1;
      if existing.Some? {
        fileId, version := existing.value.fileId, existing.value.version + 1;
      }
      var e := SyncEvent(nextSeq, folder, fileId, norm, Upsert, version, size, hash, node, now);
      var error := UpsertRow(Key(folder, norm), FileRecord(fileId, size, hash, version, node, now, false, None));
      if error.Some? {
        return Err(error.value);
      }
      Insert(e);
      return Ok(e);
    }

    method RecordLocalDelete(folder: string, path: string, node: string, now: int) returns (r: Option<SyncEvent>)
      modifies this
      ensures (View(), r) == LocalDelete(old(View()), folder, path, node, now)
      ensures Deletes(old(View()), View(), r, Key(folder, Normalize(path)), node, now)
    {
      LocalDeleteDeletes(View(), folder, path, node, now);
      var norm := Normalize(path);
      NormalizeIsProjection(path);
      NormalizeIsProjection(norm);
      var existing := GetFile(folder, norm);
      if existing.None? || existing.value.isDeleted {
        return None;
      }
      var k, row := Key(folder, norm), existing.value;
      var version := row.version + 1;
      var e := SyncEvent(nextSeq, folder, row.fileId, norm, Delete, version, 0, row.hash, node, now);
      files := files[k := row.(isDeleted := true, tombstoneAt := Some(now), version := version, modifiedAt := now,
                              origin := node)];
      Insert(e);
      return Some(e);
    }

    method InsertOnce(e: SyncEvent)
      modifies this`log, this`nextSeq
      ensures View() == AppendOnce(old(View()), e)
    {
      var present := exists i :: 0 <= i < |log| && SameEntry(log[i], e);
      if !present {
        Insert(e);
      }
    }

    method ApplyRemoteUpsert(e: SyncEvent) returns (error: Option<DbError>)
      requires e.kind == Upsert
      modifies this
      ensures match RemoteUpsert(old(View()), e)
              case Ok(db) => error == None && View() == db
              case Err(x) => error == Some(x) && View() == old(View())
      ensures Takes(old(View()), View(), error, KeyOf(e), e)
    {
      PutRemoteTakes(View(), Normal(e));
      var stored := e.(path := Normalize(e.path));
      error := UpsertRow(Key(e.folder, stored.path), LiveRow(stored));
      if error.None? {
        InsertOnce(stored);
      }
    }

    method ApplyRemoteDelete(e: SyncEvent, now: int) returns (error: Option<DbError>)
      requires e.kind == Delete
      modifies this
      ensures match RemoteDelete(old(View()), e, now)
              case Ok(db) => error == None && View() == db
              case Err(x) => error == Some(x) && View() == old(View())
      ensures Buries(old(View()), View(), error, KeyOf(e), e, now)
    {
      BuryRemoteBuries(View(), Normal(e), now);
      var stored := e.(path := Normalize(e.path), size := 0);
      var k := Key(e.folder, stored.path);
      var before := files;
      if k in files {
        files := files[k := files[k].(isDeleted := true, tombstoneAt := Some(now), version := e.version,
                                      modifiedAt := e.modifiedAt, origin := e.origin)];
      }
      var present := exists i :: 0 <= i < |log| && SameEntry(log[i], stored);
      assert forall i :: 0 <= i < |log| ==> (SameEntry(log[i], stored) <==> SameEntry(log[i], Normal(e)));
      if !present && e.folder !in folders {
        files := before;  // rollback
        return Some(NoSuchFolder);
      }
      if !present {
        Insert(stored);
      }
      return None;
    }

    method GetLatestEventSeq(folder: string) returns (latest: nat)
      ensures latest == LatestSeq(View().log, folder) && IsLatest(log, folder, latest)
    {
      LatestSeqIsLatest(log, folder);
      latest := 0;
      var i := 0;
      while i < |log|
        invariant 0 <= i <= |log|
        invariant latest == LatestSeq(log[..i], folder)
      {
        if log[i].folder == folder && log[i].seqNo > latest {
          latest := log[i].seqNo;
        }
        assert log[..i + 1][..i] == log[..i];
        i := i + 1;
      }
      assert log[..i] == log;
    }

    method GetEventsSince(folder: string, since: nat, limit: nat) returns (events: seq<SyncEvent>, latest: nat)
      ensures (events, latest) == EventsSince(View(), folder, since, limit)
      ensures Ascending(log) ==> Delivers(log, folder, since, limit, events) && IsLatest(log, folder, latest)
    {
      if Ascending(log) {
        EventsSinceDelivers(View(), folder, since, limit);
      }
      events := [];
      var i := 0;
      while i < |log|
        invariant 0 <= i <= |log|
        invariant events == Take(TailOf(log[..i], folder, since), limit)
      {
        assert log[..i + 1][..i] == log[..i];
        if log[i].folder == folder && log[i].seqNo > since && |events| < limit {
          events := events + [log[i]];
        }
        i := i + 1;
      }
      assert log[..i] == log;
      latest := GetLatestEventSeq(folder);
    }
  }
}
