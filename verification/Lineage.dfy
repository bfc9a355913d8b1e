/**
 Replaying a log whose edits all come from one node: what a follower's store looks like
 after any prefix, and why no conflict arises on the way.
 */
module Lineage {
  import opened Outcomes
  import opened Paths
  import opened Catalogue
  import opened Reconciler
  import opened Batch

  /** One folder's log with a single author: versions progress, and a file id stands for one path. */
  ghost predicate SingleAuthor(log: seq<SyncEvent>, folder: string, node: string) {
    Progressive(log) && FaithfulIds(log) &&
    forall i :: 0 <= i < |log| ==>
      log[i].folder == folder && IsNormal(log[i].path) && (log[i].kind == Upsert ==> log[i].origin == node)
  }

  ghost predicate FaithfulIds(log: seq<SyncEvent>) {
    forall i, j :: 0 <= i < |log| && 0 <= j < |log| ==> (log[i].fileId == log[j].fileId <==> At(log[i]) == At(log[j]))
  }

  ghost function Last(log: seq<SyncEvent>, k: Key): (last: Option<SyncEvent>) {
    if k in Replay(log) then Some(Replay(log)[k]) else None
  }

  function RowAt(db: Db, k: Key): (row: Option<FileRecord>) {
    if k in db.files then Some(db.files[k]) else None
  }

  /** The row shows the content that `last` leaves at its path. */
  predicate Shows(last: Option<SyncEvent>, row: Option<FileRecord>) {
    match last
    case None => row.None?
    case Some(e) =>
      if e.kind == Upsert then row.Some? && !row.value.isDeleted && row.value.hash == e.hash
      else row.None? || row.value.isDeleted
  }

  /** The row shows `last` and does not run ahead of it. */
  predicate Reflects(node: string, last: Option<SyncEvent>, row: Option<FileRecord>) {
    Shows(last, row) &&
    (row.Some? ==> last.Some? && row.value.version <= last.value.version && row.value.fileId == last.value.fileId &&
                   (!row.value.isDeleted ==> row.value.origin == node))
  }

  /** A follower's own log only speaks of the author's files, under the author's name. */
  ghost predicate Retells(log: seq<SyncEvent>, own: seq<SyncEvent>, node: string) {
    forall i :: 0 <= i < |own| ==>
      At(own[i]) in Replay(log) && own[i].fileId == Replay(log)[At(own[i])].fileId && IsNormal(own[i].path) &&
      (own[i].kind == Upsert ==> own[i].origin == node)
  }

  /** The row of the event's path already shows the event's content. */
  predicate Shown(db: Db, e: SyncEvent) {
    Shows(Some(e), RowAt(db, At(e)))
  }

  /** The row of the event's path neither shows the event's content nor comes after it. */
  predicate Behind(db: Db, e: SyncEvent) {
    !Shown(db, e) && (At(e) in db.files ==> RowRank(db.files[At(e)]) < Rank(e))
  }

  ghost predicate NoneBehind(log: seq<SyncEvent>, db: Db) {
    forall i :: 0 <= i < |log| ==> !Behind(db, log[i])
  }

  /** The store shows the log, without running ahead of it or falling behind any of it. */
  ghost predicate Follows(node: string, log: seq<SyncEvent>, db: Db) {
    (forall k :: Reflects(node, Last(log, k), RowAt(db, k))) && Retells(log, db.log, node) && NoneBehind(log, db)
  }

  /** `e` comes after everything known of its path. */
  predicate Fresh(last: Option<SyncEvent>, e: SyncEvent) {
    last.Some? ==> Rank(last.value) < Rank(e) && last.value.fileId == e.fileId
  }

  // ---------- verdicts ----------

  /** A newer event of the single author is never a conflict, and its verdict brings the row to it. */
  lemma FreshVerdict(name: Naming, node: string, last: Option<SyncEvent>, row: Option<FileRecord>, e: SyncEvent,
                     now: int)
    requires Reflects(node, last, row) && Fresh(last, e) && (e.kind == Upsert ==> e.origin == node)
    ensures var act := Decide(name, row, e);
            match act
            case Conflict(_, _, _, _, _, _, _, _) => false
            case DownloadNeeded(_, _, _, _, _, _, _) =>
              e.kind == Upsert && act == Download(e) && Reflects(node, Some(e), Some(LiveRow(EventOf(act, now))))
            case DeleteLocal(_, _, _, _) =>
              e.kind == Delete && row.Some? && act == DeleteLocal(e.folder, e.fileId, e.path, e.version) &&
              Reflects(node, Some(e), Some(Tombstone(row.value, EventOf(act, now), now)))
            case _ => Reflects(node, Some(e), row)
  {}

  /** An event the row already shows is judged idle. */
  lemma StaleVerdict(name: Naming, node: string, row: Option<FileRecord>, e: SyncEvent)
    requires Reflects(node, Some(e), row)
    ensures !Writes(Decide(name, row, e))
  {}

  // ---------- one event ----------

  lemma LastAppend(log: seq<SyncEvent>, e: SyncEvent, k: Key)
    ensures Last(log + [e], k) == if k == At(e) then Some(e) else Last(log, k)
  {
    ReplayAppend(log, e);
  }

  lemma LastIsMember(log: seq<SyncEvent>, k: Key) returns (i: nat)
    requires Last(log, k).Some?
    ensures i < |log| && log[i] == Last(log, k).value && At(log[i]) == k
  {
    i := ReplayFrom(log, k);
  }

  lemma NextIsFresh(log: seq<SyncEvent>, n: nat, folder: string, node: string)
    requires n < |log| && SingleAuthor(log, folder, node)
    ensures Fresh(Last(log[..n], At(log[n])), log[n])
  {
    if Last(log[..n], At(log[n])).Some? {
      var i := LastIsMember(log[..n], At(log[n]));
      assert log[i] == log[..n][i];
    }
  }

  lemma OtherRowsHaveOtherIds(node: string, folder: string, log: seq<SyncEvent>, n: nat, db: Db)
    requires n < |log| && SingleAuthor(log, folder, node) && Follows(node, log[..n], db)
    ensures !IdTaken(db, At(log[n]), log[n].fileId)
  {
    forall k | k in db.files && k != At(log[n]) ensures db.files[k].fileId != log[n].fileId {
      assert Reflects(node, Last(log[..n], k), RowAt(db, k));
      var i := LastIsMember(log[..n], k);
      assert log[i] == log[..n][i];
    }
  }

  lemma RetellsMore(log: seq<SyncEvent>, e: SyncEvent, own: seq<SyncEvent>, node: string)
    requires Retells(log, own, node) && (At(e) in Replay(log) ==> Replay(log)[At(e)].fileId == e.fileId)
    ensures Retells(log + [e], own, node)
  {
    ReplayAppend(log, e);
  }

  lemma RetellsEntry(log: seq<SyncEvent>, e: SyncEvent, own: seq<SyncEvent>, x: SyncEvent, node: string)
    requires Retells(log + [e], own, node) && At(x) == At(e) && x.fileId == e.fileId && IsNormal(x.path)
    requires x.kind == Upsert ==> x.origin == node
    ensures Retells(log + [e], own + [x], node)
  {
    ReplayAppend(log, e);
  }

  /** Carrying out a verdict writes one row and at most one entry, both at the verdict's target. */
  lemma CarryShape(db: Db, act: Action, env: Env)
    requires Carry(db, act, env).Some? && Writes(act)
    ensures var db', x := Carry(db, act, env).value, EventOf(act, env.now);
            && (act.DeleteLocal? && At(x) in db.files ==>
                  db'.files == db.files[At(x) := Tombstone(db.files[At(x)], x, env.now)])
            && (!act.DeleteLocal? ==> db'.files == db.files[At(x) := LiveRow(x)])
            && (db'.log == db.log || db'.log == db.log + [x.(seqNo := db.nextSeq)])
  {}

  lemma FollowsAt(node: string, log: seq<SyncEvent>, db: Db, k: Key)
    requires Follows(node, log, db)
    ensures Reflects(node, Last(log, k), RowAt(db, k))
  {}

  lemma FollowStep(name: Naming, node: string, folder: string, log: seq<SyncEvent>, n: nat, db: Db, env: Env)
    requires n < |log| && SingleAuthor(log, folder, node) && Follows(node, log[..n], db)
    requires Inv(db) && folder in db.folders
    ensures var act := Reconcile(name, db, log[n]);
            !act.Conflict? && (Carry(db, act, env).Some? <==> !(NeedsPeer(act) && !env.sent)) &&
            (Carry(db, act, env).Some? ==>
               var db' := Carry(db, act, env).value;
               Inv(db') && folder in db'.folders && Follows(node, log[..n + 1], db'))
  {
    hide Inv, Carry, Follows;
    var e := log[n];
    NormalizeIsProjection(e.path);
    assert KeyOf(e) == At(e) && GetFile(db, e.folder, e.path) == RowAt(db, At(e));
    FollowsAt(node, log[..n], db, At(e));
    NextIsFresh(log, n, folder, node);
    FreshVerdict(name, node, Last(log[..n], At(e)), RowAt(db, At(e)), e, env.now);
    OtherRowsHaveOtherIds(node, folder, log, n, db);
    var act := Reconcile(name, db, e);
    FollowStepInv(name, db, e, env);
    if Carry(db, act, env).Some? {
      PrefixProgresses(log, n);
      FollowStepRows(name, node, log[..n], e, db, env);
      assert log[..n] + [e] == log[..n + 1];
    }
  }

  lemma PrefixProgresses(log: seq<SyncEvent>, n: nat)
    requires Progressive(log) && n <= |log|
    ensures Progressive(log[..n])
  {}

  lemma FollowStepInv(name: Naming, db: Db, e: SyncEvent, env: Env)
    requires Inv(db) && e.folder in db.folders && IsNormal(e.path) && !Reconcile(name, db, e).Conflict?
    requires Reconcile(name, db, e).DownloadNeeded? ==> !IdTaken(db, At(e), e.fileId)
    ensures var act := Reconcile(name, db, e);
            (Carry(db, act, env).Some? <==> !(NeedsPeer(act) && !env.sent)) &&
            (Carry(db, act, env).Some? ==>
               Inv(Carry(db, act, env).value) && Carry(db, act, env).value.folders == db.folders)
  {
    hide Inv, BuryRemote;
    NormalizeIsProjection(e.path);
    var act := Reconcile(name, db, e);
    if act.DeleteLocal? {
      DeleteLocalKeepsInv(name, db, e, env.now);
      CommitGrows(db, EventOf(act, env.now));
    } else if RemoteStep(name, db, e, env.now).Ok? {
      RemoteStepKeepsInvIff(name, db, e, env.now);
    }
  }

  lemma FollowStepRows(name: Naming, node: string, log: seq<SyncEvent>, e: SyncEvent, db: Db, env: Env)
    requires IsNormal(e.path) && Follows(node, log, db) && Fresh(Last(log, At(e)), e)
    requires Progressive(log) && (e.kind == Upsert ==> e.origin == node)
    requires Carry(db, Reconcile(name, db, e), env).Some?
    ensures Follows(node, log + [e], Carry(db, Reconcile(name, db, e), env).value)
  {
    hide Reflects, Carry, Decide, NoneBehind;
    NormalizeIsProjection(e.path);
    FollowStepNoneBehind(name, node, log, e, db, env);
    var act, row := Reconcile(name, db, e), RowAt(db, At(e));
    var db' := Carry(db, act, env).value;
    assert act == Decide(name, row, e);
    assert Reflects(node, Last(log, At(e)), row);
    FreshVerdict(name, node, Last(log, At(e)), row, e, env.now);
    RetellsMore(log, e, db.log, node);
    if Writes(act) {
      CarryShape(db, act, env);
      RetellsEntry(log, e, db.log, EventOf(act, env.now).(seqNo := db.nextSeq), node);
    } else {
      CarryIdle(db, act, env);
    }
    forall k ensures Reflects(node, Last(log + [e], k), RowAt(db', k)) {
      LastAppend(log, e, k);
      assert Reflects(node, Last(log, k), RowAt(db, k));
    }
  }

  lemma FollowStepNoneBehind(name: Naming, node: string, log: seq<SyncEvent>, e: SyncEvent, db: Db, env: Env)
    requires IsNormal(e.path) && Follows(node, log, db) && Fresh(Last(log, At(e)), e)
    requires Progressive(log) && (e.kind == Upsert ==> e.origin == node)
    requires Carry(db, Reconcile(name, db, e), env).Some?
    ensures NoneBehind(log + [e], Carry(db, Reconcile(name, db, e), env).value)
  {
    hide Carry, Decide, Reflects, Retells, Shows, Normalize;
    NormalizeIsProjection(e.path);
    var act, row := Reconcile(name, db, e), RowAt(db, At(e));
    var db', more := Carry(db, act, env).value, log + [e];
    FollowsAt(node, log, db, At(e));
    FreshVerdict(name, node, Last(log, At(e)), row, e, env.now);
    if Writes(act) {
      CarryShape(db, act, env);
      WrittenRank(db, act, env, e);
      forall i | 0 <= i < |more| ensures !Behind(db', more[i]) {
        if i < |log| {
          assert !Behind(db, log[i]);
          ReplayIsTop(log, i);
        }
      }
    } else {
      CarryIdle(db, act, env);
      IdleIsShown(node, e, row);
      forall i | 0 <= i < |more| ensures !Behind(db', more[i]) {
        assert i < |log| ==> !Behind(db, log[i]);
      }
    }
  }

  lemma IdleIsShown(node: string, e: SyncEvent, row: Option<FileRecord>)
    requires Reflects(node, Some(e), row)
    ensures Shows(Some(e), row)
  {}

  /** The row that a verdict on `e` about its own path writes has the rank of `e`. */
  lemma WrittenRank(db: Db, act: Action, env: Env, e: SyncEvent)
    requires Carry(db, act, env).Some? && Writes(act) && TargetOf(act) == At(e) &&
             Rank(EventOf(act, env.now)) == Rank(e)
    requires act.DeleteLocal? ==> At(e) in db.files
    ensures At(e) in Carry(db, act, env).value.files && RowRank(Carry(db, act, env).value.files[At(e)]) == Rank(e)
    ensures forall k :: k != At(e) ==> RowAt(Carry(db, act, env).value, k) == RowAt(db, k)
  {
    CarryShape(db, act, env);
  }

  lemma CarryIdle(db: Db, act: Action, env: Env)
    requires !Writes(act)
    ensures Carry(db, act, env) == Some(db)
  {}

  // ---------- a batch ----------

  ghost predicate DistinctPaths(evs: seq<SyncEvent>) {
    forall i, j :: 0 <= i < j < |evs| ==> At(evs[i]) != At(evs[j])
  }

  lemma DistinctRest(evs: seq<SyncEvent>)
    requires DistinctPaths(evs) && evs != []
    ensures DistinctPaths(evs[1..])
  {}

  /** Between `m` and `n` the path's last event does not change if the path does not occur there. */
  lemma {:induction false} LastUnchanged(log: seq<SyncEvent>, m: nat, n: nat, k: Key)
    requires m <= n <= |log| && forall i :: m <= i < n ==> At(log[i]) != k
    ensures Last(log[..n], k) == Last(log[..m], k)
  {
    if m < n {
      LastUnchanged(log, m, n - 1, k);
      assert log[..n] == log[..n - 1] + [log[n - 1]];
      LastAppend(log[..n - 1], log[n - 1], k);
    }
  }

  /** One event at a time, from cursor `c`, on a store that already shows the first `m` events. */
  lemma {:induction false} StepsFollow(name: Naming, node: string, folder: string, log: seq<SyncEvent>, c: nat, m: nat,
                                       db: Db, envs: seq<Env>)
    requires c <= m <= |log| && |envs| == |log| - c && DistinctPaths(log[c..])
    requires SingleAuthor(log, folder, node) && Follows(node, log[..m], db) && Inv(db) && folder in db.folders
    ensures var r := StepAll(name, db, log[c..], envs);
            Inv(r.db) && folder in r.db.folders && Follows(node, log[..Max(m, c + r.done)], r.db) &&
            (AllSent(envs) ==> r.done == |envs|)
    decreases |log| - c
  {
    hide Inv, Follows, SingleAuthor, Reconcile, Carry, DistinctPaths, NeedsPeer, Writes;
    if c < |log| {
      var e := log[c];
      var act := Reconcile(name, db, e);
      DistinctRest(log[c..]);
      assert log[c..][1..] == log[c + 1..] && log[c..][0] == e;
      if c < m {
        StaleInBatch(name, node, folder, log, c, m, db);
        CarryIdle(db, act, envs[0]);
        StepsFollow(name, node, folder, log, c + 1, m, db, envs[1..]);
      } else {
        FollowStep(name, node, folder, log, c, db, envs[0]);
        var carried := Carry(db, act, envs[0]);
        if carried.Some? {
          StepsFollow(name, node, folder, log, c + 1, c + 1, carried.value, envs[1..]);
        }
      }
    }
  }

  lemma StaleInBatch(name: Naming, node: string, folder: string, log: seq<SyncEvent>, c: nat, m: nat, db: Db)
    requires c < m <= |log| && DistinctPaths(log[c..])
    requires SingleAuthor(log, folder, node) && Follows(node, log[..m], db)
    ensures !Writes(Reconcile(name, db, log[c]))
  {
    hide Progressive, FaithfulIds, Follows, Retells, Decide, Reflects, Replay, Normalize;
    var e := log[c];
    NormalizeIsProjection(e.path);
    forall i | c + 1 <= i < m ensures At(log[i]) != At(e) {
      assert log[c..][0] == e && log[c..][i - c] == log[i];
    }
    LastUnchanged(log, c + 1, m, At(e));
    assert log[..c + 1] == log[..c] + [e];
    LastAppend(log[..c], e, At(e));
    FollowsAt(node, log[..m], db, At(e));
    StaleVerdict(name, node, RowAt(db, At(e)), e);
  }

  /** A later event of a batch without repeats, judged against the batch's snapshot, is never a conflict. */
  lemma SnapshotVerdict(name: Naming, node: string, folder: string, log: seq<SyncEvent>, c: nat, m: nat, j: nat, db: Db)
    requires c <= j < |log| && c <= m <= |log| && DistinctPaths(log[c..])
    requires SingleAuthor(log, folder, node) && Follows(node, log[..m], db)
    ensures !Reconcile(name, db, log[j]).Conflict?
  {
    var e := log[j];
    if j < m {
      assert DistinctPaths(log[j..]) by {
        assert log[c..][j - c..] == log[j..];
      }
      StaleInBatch(name, node, folder, log, j, m, db);
    } else {
      NormalizeIsProjection(e.path);
      forall i | m <= i < j ensures At(log[i]) != At(e) {
        assert log[c..][i - c] == log[i] && log[c..][j - c] == e;
      }
      LastUnchanged(log, m, j, At(e));
      NextIsFresh(log, j, folder, node);
      assert Reflects(node, Last(log[..m], At(e)), RowAt(db, At(e)));
      FreshVerdict(name, node, Last(log[..m], At(e)), RowAt(db, At(e)), e, 0);
    }
  }

  lemma SnapshotIsIndependent(name: Naming, node: string, folder: string, log: seq<SyncEvent>, c: nat, m: nat, db: Db)
    requires c <= m <= |log| && DistinctPaths(log[c..])
    requires SingleAuthor(log, folder, node) && Follows(node, log[..m], db)
    ensures Independent(name, db, log[c..])
  {
    hide Decide, EventOf;
    var evs := log[c..];
    forall i, j | 0 <= i < j < |evs| ensures LeavesAlone(Reconcile(name, db, evs[i]), KeyOf(evs[j])) {
      assert evs[i] == log[c + i] && evs[j] == log[c + j];
      SnapshotVerdict(name, node, folder, log, c, m, c + i, db);
      NormalizeIsProjection(evs[i].path);
      NormalizeIsProjection(evs[j].path);
      if Writes(Reconcile(name, db, evs[i])) {
        TargetNotOwn(name, db, evs[i]);
      }
    }
  }

  /**
   A pull, complete or cut short anywhere, leaves a follower showing at least what it showed, without any conflict.
   */
  lemma PullFollows(name: Naming, node: string, folder: string, log: seq<SyncEvent>, c: nat, m: nat, db: Db,
                    envs: seq<Env>)
    requires c <= m <= |log| && |envs| == |log| - c && DistinctPaths(log[c..])
    requires SingleAuthor(log, folder, node) && Follows(node, log[..m], db) && Inv(db) && folder in db.folders
    ensures var r := PullAll(name, db, log[c..], envs);
            Inv(r.db) && folder in r.db.folders && Follows(node, log[..Max(m, c + r.done)], r.db) &&
            (AllSent(envs) ==> r.done == |envs|)
    ensures forall i :: 0 <= i < |envs| ==> !ReconcileAll(name, db, log[c..])[i].Conflict?
  {
    hide Inv, Follows, SingleAuthor;
    SnapshotIsIndependent(name, node, folder, log, c, m, db);
    PullRefinesSteps(name, db, log[c..], envs);
    StepsFollow(name, node, folder, log, c, m, db, envs);
    forall i | 0 <= i < |envs| ensures !Reconcile(name, db, log[c..][i]).Conflict? {
      assert log[c..][i] == log[c + i];
      SnapshotVerdict(name, node, folder, log, c, m, c + i, db);
    }
  }

  /** A follower's own log can be followed in turn. */
  lemma FollowerIsSingleAuthor(node: string, folder: string, log: seq<SyncEvent>, m: nat, db: Db)
    requires m <= |log| && SingleAuthor(log, folder, node) && Follows(node, log[..m], db) && Progressive(db.log)
    ensures SingleAuthor(db.log, folder, node)
  {
    var own := db.log;
    forall i | 0 <= i < |own| ensures own[i].folder == folder {
      var a := ReplayFrom(log[..m], At(own[i]));
      assert log[..m][a] == log[a];
    }
    forall i, j | 0 <= i < |own| && 0 <= j < |own|
      ensures own[i].fileId == own[j].fileId <==> At(own[i]) == At(own[j])
    {
      var a := ReplayFrom(log[..m], At(own[i]));
      var b := ReplayFrom(log[..m], At(own[j]));
      assert log[..m][a] == log[a] && log[..m][b] == log[b];
    }
  }
}
