/**
 The decision table read the other way (reconciler.rs): for every verdict the exact condition on the event and the row
 under which it is given, what it says, and what carrying it out does to the store (service.rs, coordinator.rs).
 */
module VerdictLaws {
  import opened Outcomes
  import opened Paths
  import opened Catalogue
  import opened StoreLaws
  import opened Reconciler
  import opened Batch

  predicate HasLive(db: Db, k: Key) {
    k in db.files && !db.files[k].isDeleted
  }

  predicate HasTombstone(db: Db, k: Key) {
    k in db.files && db.files[k].isDeleted
  }

  /** An edit of the row's content that comes later: a higher version, of the same author or of a later time. */
  predicate SupersedesRow(e: SyncEvent, row: FileRecord) {
    e.version > row.version && (e.origin == row.origin || row.modifiedAt < e.modifiedAt)
  }

  /**
   A delete is carried out exactly on a live row it is at least as new as, whatever the ids; it names the row's id.
   */
  lemma DeleteLocalIff(name: Naming, db: Db, e: SyncEvent)
    ensures var act := Reconcile(name, db, e);
            && (act.DeleteLocal? <==>
                  e.kind == Delete && HasLive(db, KeyOf(e)) && e.version >= db.files[KeyOf(e)].version)
            && (act.DeleteLocal? ==> act == DeleteLocal(e.folder, db.files[KeyOf(e)].fileId, e.path, e.version))
  {}

  /** A file is fetched exactly for an upsert of an unknown path, over an older tombstone, or superseding the row. */
  lemma DownloadIff(name: Naming, db: Db, e: SyncEvent)
    ensures var act := Reconcile(name, db, e);
            && (act.DownloadNeeded? <==>
                  e.kind == Upsert &&
                  (KeyOf(e) !in db.files ||
                   (HasTombstone(db, KeyOf(e)) && e.version > db.files[KeyOf(e)].version) ||
                   (HasLive(db, KeyOf(e)) && db.files[KeyOf(e)].hash != e.hash &&
                     SupersedesRow(e, db.files[KeyOf(e)]))))
            && (act.DownloadNeeded? ==>
                  act == DownloadNeeded(e.folder, e.fileId, e.path, e.size, e.hash, e.version, e.origin))
  {}

  /** Nothing is fetched exactly for an upsert of the live content, at the higher of the two versions. */
  lemma UpToDateIff(name: Naming, db: Db, e: SyncEvent)
    ensures var act := Reconcile(name, db, e);
            && (act.UpToDate? <==> e.kind == Upsert && HasLive(db, KeyOf(e)) && db.files[KeyOf(e)].hash == e.hash)
            && (act.UpToDate? ==>
                  var row := db.files[KeyOf(e)];
                  act.fileId == row.fileId && act.version >= e.version && act.version >= row.version &&
                  (act.version == e.version || act.version == row.version))
  {}

  /** An event is ignored exactly if it deletes what is not live or is newer, or edits a tombstone at least as new. */
  lemma IgnoreIff(name: Naming, db: Db, e: SyncEvent)
    ensures Reconcile(name, db, e).Ignore? <==>
              if e.kind == Delete then !HasLive(db, KeyOf(e)) || e.version < db.files[KeyOf(e)].version
              else HasTombstone(db, KeyOf(e)) && e.version <= db.files[KeyOf(e)].version
  {}

  /** A conflict is branched exactly for an upsert of another content than the live row's that does not supersede it. */
  lemma BranchIff(name: Naming, db: Db, e: SyncEvent)
    ensures var act := Reconcile(name, db, e);
            && (act.Conflict? <==>
                  e.kind == Upsert && HasLive(db, KeyOf(e)) && db.files[KeyOf(e)].hash != e.hash &&
                  !SupersedesRow(e, db.files[KeyOf(e)]))
            && (act.Conflict? ==>
                  act == Conflict(e.folder, e.fileId, e.path, name(e), e.size, e.hash, e.version, e.origin))
  {}

  // ---------- carrying a verdict out ----------

  function After(db: Db, r: Result<Db, DbError>): (after: Db) {
    match r
    case Ok(db') => db'
    case Err(_) => db
  }

  /** Which of the store's promises each verdict makes use of, for what event. */
  lemma ApplyKeepsPromises(db: Db, act: Action, now: int)
    ensures var r := Apply(db, act, now);
            match act
            case DownloadNeeded(folder, fileId, path, size, hash, version, origin) =>
              Takes(db, After(db, r), ErrorOf(r), Key(folder, Normalize(path)),
                    SyncEvent(0, folder, fileId, path, Upsert, version, size, hash, origin, now))
            case Conflict(folder, fileId, _, conflictPath, size, hash, version, origin) =>
              Takes(db, After(db, r), ErrorOf(r), Key(folder, Normalize(conflictPath)),
                    SyncEvent(0, folder, fileId + "_conflict", conflictPath, Upsert, version, size, hash, origin, now))
            case DeleteLocal(folder, fileId, path, version) =>
              Buries(db, After(db, r), ErrorOf(r), Key(folder, Normalize(path)),
                     SyncEvent(0, folder, fileId, path, Delete, version, 0, "", "remote", now), now)
            case _ => r == Ok(db)
  {
    hide Normalize, PutRemote, BuryRemote, HasUpsert, HasDelete;
    if Writes(act) {
      var e := EventOf(act, now);
      if e.kind == Upsert {
        PutRemoteTakes(db, e);
      } else {
        BuryRemoteBuries(db, e, now);
      }
    }
  }

  /** After a delete at least as new as the live row, of whatever file id, the row is a tombstone of its version. */
  lemma DeleteTakesEffect(name: Naming, db: Db, e: SyncEvent, now: int)
    requires e.kind == Delete && HasLive(db, KeyOf(e)) && e.version >= db.files[KeyOf(e)].version &&
             e.folder in db.folders
    ensures var r := RemoteStep(name, db, e, now);
            && r.Ok? && HasTombstone(r.value, KeyOf(e)) && r.value.files[KeyOf(e)].version == e.version
            && r.value.files[KeyOf(e)].fileId == db.files[KeyOf(e)].fileId
            && HasDelete(r.value.log, KeyOf(e), e.version)
  {
    hide Normalize, Apply, Decide;
    DeleteLocalIff(name, db, e);
    var act := Reconcile(name, db, e);
    ApplyKeepsPromises(db, act, now);
    var r := Apply(db, act, now);
    assert ErrorOf(r).None?;
    var k, after := KeyOf(e), After(db, r);
    if !HasDelete(db.log, k, e.version) {
      var x := after.log[|db.log|];
      assert x in after.log && x.folder == k.folder && x.path == k.path && x.kind == Delete && x.version == e.version;
    }
  }

  // ---------- a batch ----------

  /** An action goes through exactly if its pull request, if it needs one, can be sent and the store takes it. */
  lemma CarryIff(db: Db, act: Action, env: Env)
    ensures Carry(db, act, env).Some? <==>
              ((act.DownloadNeeded? || act.Conflict?) ==> env.sent) && Apply(db, act, env.now).Ok?
    ensures Carry(db, act, env).Some? ==> Apply(db, act, env.now) == Ok(Carry(db, act, env).value)
  {}

  /**
   The stores a batch goes through: each action is carried out on what the one before left, up to the first that
   fails.
   */
  ghost predicate Trace(acts: seq<Action>, envs: seq<Env>, dbs: seq<Db>, done: nat)
    requires |acts| == |envs|
  {
    done <= |acts| && |dbs| == done + 1 &&
    (forall i :: 0 <= i < done ==> Carry(dbs[i], acts[i], envs[i]) == Some(dbs[i + 1])) &&
    (done < |acts| ==> Carry(dbs[done], acts[done], envs[done]).None?)
  }

  lemma {:induction false} ApplyAllTraced(db: Db, acts: seq<Action>, envs: seq<Env>) returns (dbs: seq<Db>)
    requires |acts| == |envs|
    ensures var r := ApplyAll(db, acts, envs); Trace(acts, envs, dbs, r.done) && dbs[0] == db && dbs[r.done] == r.db
    decreases |acts|
  {
    hide Carry;
    if acts == [] || Carry(db, acts[0], envs[0]).None? {
      dbs := [db];
    } else {
      var rest := ApplyAllTraced(Carry(db, acts[0], envs[0]).value, acts[1..], envs[1..]);
      dbs := [db] + rest;
    }
  }

  /** A pulled batch: every event's verdict on the store at the start, carried out in order up to the first failure. */
  lemma PullAllTraced(name: Naming, db: Db, evs: seq<SyncEvent>, envs: seq<Env>)
    returns (acts: seq<Action>, dbs: seq<Db>)
    requires |evs| == |envs|
    ensures |acts| == |evs| && forall i :: 0 <= i < |evs| ==> acts[i] == Reconcile(name, db, evs[i])
    ensures var r := PullAll(name, db, evs, envs); Trace(acts, envs, dbs, r.done) && dbs[0] == db && dbs[r.done] == r.db
  {
    hide Carry, Reconcile, ApplyAll, Trace;
    acts := ReconcileAll(name, db, evs);
    dbs := ApplyAllTraced(db, acts, envs);
  }
}
