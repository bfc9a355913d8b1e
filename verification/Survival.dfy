/**
 Zero data loss: what becomes of live contents when one remote event is taken in
 (reconciler.rs, service.rs).
 */
module Survival {
  import opened Outcomes
  import opened Paths
  import opened Catalogue
  import opened Reconciler

  predicate Holds(db: Db, k: Key, hash: string) {
    k in db.files && !db.files[k].isDeleted && db.files[k].hash == hash
  }

  /** Every live content is still live where it was. */
  ghost predicate KeepsContents(db: Db, db': Db) {
    forall k :: k in db.files && !db.files[k].isDeleted ==> Holds(db', k, db.files[k].hash)
  }

  /** What a remote event leaves in the catalogue, field by field, for every verdict. */
  lemma StepRecordsTheEvent(name: Naming, db: Db, e: SyncEvent, now: int)
    requires RemoteStep(name, db, e, now).Ok?
    ensures var db', act := RemoteStep(name, db, e, now).value, Reconcile(name, db, e);
            match act
            case DownloadNeeded(_, _, _, _, _, _, _) =>
              KeyOf(e) in db'.files &&
              db'.files[KeyOf(e)] == FileRecord(e.fileId, e.size, e.hash, e.version, e.origin, now, false, None)
            case Conflict(_, _, _, _, _, _, _, _) =>
              TargetOf(act) in db'.files &&
              db'.files[TargetOf(act)] ==
                FileRecord(e.fileId + "_conflict", e.size, e.hash, e.version, e.origin, now, false, None)
            case DeleteLocal(_, _, _, _) =>
              KeyOf(e) in db.files && KeyOf(e) in db'.files &&
              db'.files[KeyOf(e)] ==
                FileRecord(db.files[KeyOf(e)].fileId, db.files[KeyOf(e)].size, db.files[KeyOf(e)].hash,
                           e.version, REMOTE, now, true, Some(now))
            case UpToDate(fileId, version) =>
              db' == db && KeyOf(e) in db.files && fileId == db.files[KeyOf(e)].fileId &&
              version >= e.version && version >= db.files[KeyOf(e)].version
            case Ignore => db' == db
  {
    if Reconcile(name, db, e).DownloadNeeded? {
      TargetIsOwnPath(name, GetFile(db, e.folder, e.path), e);
    }
  }

  /** The incoming content is kept, in place or beside it, unless a tombstone at least as new stands against it. */
  lemma IncomingContentIsKept(name: Naming, db: Db, e: SyncEvent, now: int)
    requires e.kind == Upsert && RemoteStep(name, db, e, now).Ok?
    ensures var db' := RemoteStep(name, db, e, now).value;
            || Holds(db', KeyOf(e), e.hash)
            || Holds(db', TargetOf(Branch(name, e)), e.hash)
            || (KeyOf(e) in db'.files && db'.files[KeyOf(e)].isDeleted && db'.files[KeyOf(e)].version >= e.version)
  {
    hide RemoteStep, TargetOf, Normalize;
    StepRecordsTheEvent(name, db, e, now);
  }

  /**
   A live local content gives way only to a strictly higher version (an upsert) or one at least as high (a delete).
   */
  lemma LocalContentYieldsOnlyToLater(name: Naming, db: Db, e: SyncEvent, now: int)
    requires RemoteStep(name, db, e, now).Ok? && KeyOf(e) in db.files && !db.files[KeyOf(e)].isDeleted
    ensures var row, db' := db.files[KeyOf(e)], RemoteStep(name, db, e, now).value;
            KeyOf(e) in db'.files &&
            (db'.files[KeyOf(e)] != row ==>
               if e.kind == Upsert then e.version > row.version && Holds(db', KeyOf(e), e.hash)
               else e.version >= row.version && db'.files[KeyOf(e)].isDeleted)
  {
    StepRecordsTheEvent(name, db, e, now);
    BranchTarget(name, e);
    if Reconcile(name, db, e).Conflict? {
      ApplyFrame(db, Branch(name, e), now, KeyOf(e));
    }
    hide Apply, TargetOf, Normalize;
  }

  /** Rows other than the event's path and its conflict copy are not touched. */
  lemma OtherRowsUntouched(name: Naming, db: Db, e: SyncEvent, now: int, k: Key)
    requires RemoteStep(name, db, e, now).Ok? && k != KeyOf(e)
    requires Reconcile(name, db, e).Conflict? ==> k != TargetOf(Branch(name, e))
    ensures var db' := RemoteStep(name, db, e, now).value;
            (k in db'.files <==> k in db.files) && (k in db.files ==> db'.files[k] == db.files[k])
  {
    if Writes(Reconcile(name, db, e)) {
      TargetIsOwnPath(name, GetFile(db, e.folder, e.path), e);
    }
  }

  /** Branching a conflict loses no content, exactly when its name is not taken by another live content. */
  lemma ConflictLosesNothingIff(name: Naming, db: Db, e: SyncEvent, now: int)
    requires Reconcile(name, db, e).Conflict? && RemoteStep(name, db, e, now).Ok?
    ensures var t := TargetOf(Branch(name, e));
            KeepsContents(db, RemoteStep(name, db, e, now).value) <==>
              !(t in db.files && !db.files[t].isDeleted && db.files[t].hash != e.hash)
  {
    BranchTarget(name, e);
    var t, db' := TargetOf(Branch(name, e)), RemoteStep(name, db, e, now).value;
    assert Holds(db', t, e.hash);
    forall k | k in db.files && k != t ensures k in db'.files && db'.files[k] == db.files[k] {
      ApplyFrame(db, Reconcile(name, db, e), now, k);
    }
  }

  /** Two nodes that edited a path concurrently each hold both contents after one exchange of their events. */
  lemma ExchangeKeepsBoth(name: Naming, a: Db, b: Db, k: Key, now: int)
    requires Inv(a) && Inv(b) && k in a.files && k in b.files
    requires !a.files[k].isDeleted && !b.files[k].isDeleted
    requires a.files[k].version == b.files[k].version && a.files[k].hash != b.files[k].hash
    requires RemoteStep(name, a, Replay(b.log)[k], now).Ok? && RemoteStep(name, b, Replay(a.log)[k], now).Ok?
    ensures var a' := RemoteStep(name, a, Replay(b.log)[k], now).value;
            var b' := RemoteStep(name, b, Replay(a.log)[k], now).value;
            && Holds(a', k, a.files[k].hash)
            && Holds(a', TargetOf(Branch(name, Replay(b.log)[k])), b.files[k].hash)
            && Holds(b', k, b.files[k].hash)
            && Holds(b', TargetOf(Branch(name, Replay(a.log)[k])), a.files[k].hash)
  {
    OneSideKeepsBoth(name, a, b, k, now);
    OneSideKeepsBoth(name, b, a, k, now);
  }

  lemma OneSideKeepsBoth(name: Naming, a: Db, b: Db, k: Key, now: int)
    requires Inv(b) && IsNormal(k.path) && k in a.files && k in b.files
    requires !a.files[k].isDeleted && !b.files[k].isDeleted
    requires a.files[k].version == b.files[k].version && a.files[k].hash != b.files[k].hash
    requires RemoteStep(name, a, Replay(b.log)[k], now).Ok?
    ensures var a' := RemoteStep(name, a, Replay(b.log)[k], now).value;
            Holds(a', k, a.files[k].hash) && Holds(a', TargetOf(Branch(name, Replay(b.log)[k])), b.files[k].hash)
  {
    var e := Replay(b.log)[k];
    ConcurrentEditIsBranched(name, a, b, k);
    BranchTarget(name, e);
    hide Reconcile, Inv, Replay, Normalize;
    BranchLeavesCopy(name, a, e, now);
    ApplyFrame(a, Branch(name, e), now, k);
  }

  lemma ConcurrentEditIsBranched(name: Naming, a: Db, b: Db, k: Key)
    requires Inv(b) && IsNormal(k.path) && k in a.files && k in b.files
    requires !a.files[k].isDeleted && !b.files[k].isDeleted
    requires a.files[k].version == b.files[k].version && a.files[k].hash != b.files[k].hash
    ensures k in Replay(b.log)
    ensures var e := Replay(b.log)[k];
            KeyOf(e) == k && e.hash == b.files[k].hash && Reconcile(name, a, e) == Branch(name, e)
  {
    var i := ReplayFrom(b.log, k);
    NormalizeIsProjection(k.path);
    assert Matches(b.files[k], Replay(b.log)[k]);
    hide Normalize;
  }

  lemma BranchLeavesCopy(name: Naming, db: Db, e: SyncEvent, now: int)
    requires Apply(db, Branch(name, e), now).Ok?
    ensures Holds(Apply(db, Branch(name, e), now).value, TargetOf(Branch(name, e)), e.hash)
  {
    hide Normalize;
  }

  /** A local edit supersedes whatever was known of its path, by one version and under the path's own id. */
  lemma LocalEditSupersedes(db: Db, folder: string, path: string, size: nat, hash: string, node: string, now: int)
    requires Inv(db) && LocalUpsert(db, folder, path, size, hash, node, now).Ok?
    ensures var k, (db', e) := Key(folder, Normalize(path)), LocalUpsert(db, folder, path, size, hash, node, now).value;
            && k in db'.files && e.seqNo == |db.log| + 1 && db'.log == db.log + [e]
            && Holds(db', k, hash) && db'.files[k].size == size && db'.files[k].origin == node == e.origin
            && db'.files[k].version == e.version == (if k in db.files then db.files[k].version + 1 else 1)
            && (k in db.files ==> db'.files[k].fileId == e.fileId == db.files[k].fileId)
            && (forall j :: j in db.files && j != k ==> j in db'.files && db'.files[j] == db.files[j])
  {}
}
