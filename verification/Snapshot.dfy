/**
 A whole batch is judged against one snapshot (service.rs `reconcile_remote_events`). With repeated
 paths that is not the same as one event at a time. This module says exactly when a complete pull of
 a single author's log still shows that log.
 */
module Snapshot {
  import opened Outcomes
  import opened Paths
  import opened Catalogue
  import opened Reconciler
  import opened Batch
  import opened Lineage

  /** The store shows the content every path has at the end of the log. */
  ghost predicate ShowsLog(log: seq<SyncEvent>, db: Db) {
    forall k :: Shows(Last(log, k), RowAt(db, k))
  }

  predicate IsLastOfPath(evs: seq<SyncEvent>, j: nat) {
    j < |evs| && forall i :: j < i < |evs| ==> At(evs[i]) != At(evs[j])
  }

  /** Of every path's events in the batch, the row is behind the last one, or behind none of the earlier ones. */
  predicate LastWins(evs: seq<SyncEvent>, db: Db) {
    forall j :: 0 <= j < |evs| && IsLastOfPath(evs, j) ==> WinsAt(evs, db, j)
  }

  predicate WinsAt(evs: seq<SyncEvent>, db: Db, j: nat)
    requires j < |evs|
  {
    Behind(db, evs[j]) || forall i :: 0 <= i < j && At(evs[i]) == At(evs[j]) ==> !Behind(db, evs[i])
  }

  // ---------- what a complete run of actions leaves at a path ----------

  /** The index of the last action writing `k`, or -1. */
  ghost function LastWrite(acts: seq<Action>, k: Key): (w: int)
    ensures -1 <= w < |acts|
    ensures 0 <= w ==> Writes(acts[w]) && TargetOf(acts[w]) == k
    ensures forall i :: w < i < |acts| ==> LeavesAlone(acts[i], k)
  {
    if acts == [] then -1
    else
      var r := LastWrite(acts[1..], k);
      if r >= 0 then r + 1 else if LeavesAlone(acts[0], k) then -1 else 0
  }

  lemma CarryShows(db: Db, act: Action, env: Env)
    requires Carry(db, act, env).Some? && Writes(act)
    ensures Shows(Some(EventOf(act, 0)), RowAt(Carry(db, act, env).value, TargetOf(act)))
  {}

  lemma {:induction false} AfterAll(db: Db, acts: seq<Action>, envs: seq<Env>, k: Key)
    requires |acts| == |envs| && ApplyAll(db, acts, envs).done == |acts|
    ensures var row, w := RowAt(ApplyAll(db, acts, envs).db, k), LastWrite(acts, k);
            if w < 0 then row == RowAt(db, k) else Shows(Some(EventOf(acts[w], 0)), row)
    decreases |acts|
  {
    hide Carry, Shows, EventOf;
    if acts != [] {
      var mid := Carry(db, acts[0], envs[0]).value;
      AfterAll(mid, acts[1..], envs[1..], k);
      if LastWrite(acts[1..], k) < 0 {
        if LeavesAlone(acts[0], k) {
          CarryFrame(db, acts[0], envs[0], k);
        } else {
          CarryShows(db, acts[0], envs[0]);
        }
      }
    }
  }

  /** A row that was written last for `w` has the rank of that event. */
  lemma {:induction false} AfterAllRank(db: Db, acts: seq<Action>, envs: seq<Env>, k: Key)
    requires |acts| == |envs| && ApplyAll(db, acts, envs).done == |acts|
    requires forall i :: 0 <= i < |acts| && acts[i].DeleteLocal? ==> TargetOf(acts[i]) in db.files
    ensures var after, w := ApplyAll(db, acts, envs).db, LastWrite(acts, k);
            0 <= w ==> k in after.files && RowRank(after.files[k]) == Rank(EventOf(acts[w], 0))
    decreases |acts|
  {
    hide Carry, EventOf;
    if acts != [] {
      var mid := Carry(db, acts[0], envs[0]).value;
      CarryRank(db, acts[0], envs[0]);
      AfterAllRank(mid, acts[1..], envs[1..], k);
      AfterAll(mid, acts[1..], envs[1..], k);
    }
  }

  lemma CarryRank(db: Db, act: Action, env: Env)
    requires Carry(db, act, env).Some? && (act.DeleteLocal? ==> TargetOf(act) in db.files)
    ensures var db' := Carry(db, act, env).value;
            && db.files.Keys <= db'.files.Keys
            && (Writes(act) ==>
                  TargetOf(act) in db'.files && RowRank(db'.files[TargetOf(act)]) == Rank(EventOf(act, 0)))
  {
    hide Normalize;
    if Writes(act) {
      CarryShape(db, act, env);
    }
  }

  // ---------- every action of such a batch goes through ----------

  ghost predicate RowIdsFrom(log: seq<SyncEvent>, db: Db) {
    forall k :: k in db.files ==> exists i :: 0 <= i < |log| && At(log[i]) == k && log[i].fileId == db.files[k].fileId
  }

  /** The action is the verdict on some event of the log, about its own path. */
  predicate Concerns(act: Action, e: SyncEvent) {
    (act.DownloadNeeded? ==> act == Download(e) && e.kind == Upsert) &&
    (act.DeleteLocal? ==> act == DeleteLocal(e.folder, e.fileId, e.path, e.version) && e.kind == Delete) &&
    !act.Conflict?
  }

  lemma ConcernedCarry(log: seq<SyncEvent>, folder: string, node: string, i: nat, db: Db, act: Action, env: Env)
    requires i < |log| && SingleAuthor(log, folder, node) && Concerns(act, log[i])
    requires RowIdsFrom(log, db) && folder in db.folders && env.sent
    ensures Carry(db, act, env).Some? && RowIdsFrom(log, Carry(db, act, env).value)
    ensures folder in Carry(db, act, env).value.folders
  {
    NormalizeIsProjection(log[i].path);
    if Writes(act) {
      var x := EventOf(act, env.now);
      assert At(x) == At(log[i]) && x.fileId == log[i].fileId;
      assert !IdTaken(db, At(x), x.fileId);
      CarryShape(db, act, env);
      CommitGrows(db, x);
      forall k | k in Carry(db, act, env).value.files
        ensures exists j ::
                  0 <= j < |log| && At(log[j]) == k && log[j].fileId == Carry(db, act, env).value.files[k].fileId
      {
        if k == At(x) && act.DownloadNeeded? {
          assert At(log[i]) == k;
        }
      }
    }
  }

  lemma {:induction false} AllGoThrough(log: seq<SyncEvent>, folder: string, node: string, c: nat, db: Db,
                                        acts: seq<Action>, envs: seq<Env>)
    requires c <= |log| && |acts| == |envs| == |log| - c && AllSent(envs)
    requires SingleAuthor(log, folder, node) && RowIdsFrom(log, db) && folder in db.folders
    requires forall j :: 0 <= j < |acts| ==> Concerns(acts[j], log[c + j])
    ensures ApplyAll(db, acts, envs).done == |acts|
    decreases |acts|
  {
    hide SingleAuthor, RowIdsFrom, Concerns, Carry;
    if acts != [] {
      assert Concerns(acts[0], log[c + 0]);
      ConcernedCarry(log, folder, node, c, db, acts[0], envs[0]);
      forall j | 0 <= j < |acts[1..]| ensures Concerns(acts[1..][j], log[c + 1 + j]) {
        assert Concerns(acts[j + 1], log[c + (j + 1)]);
      }
      AllGoThrough(log, folder, node, c + 1, Carry(db, acts[0], envs[0]).value, acts[1..], envs[1..]);
    }
  }

  lemma FollowerRowIds(node: string, log: seq<SyncEvent>, c: nat, db: Db)
    requires c <= |log| && Follows(node, log[..c], db)
    ensures RowIdsFrom(log, db)
  {
    forall k | k in db.files
      ensures exists i :: 0 <= i < |log| && At(log[i]) == k && log[i].fileId == db.files[k].fileId
    {
      FollowsAt(node, log[..c], db, k);
      var i := LastIsMember(log[..c], k);
      assert log[i] == log[..c][i];
    }
  }

  // ---------- the verdicts of one path against the snapshot ----------

  lemma LaterEventIsFresh(log: seq<SyncEvent>, folder: string, node: string, c: nat, j: nat)
    requires c <= j < |log| && SingleAuthor(log, folder, node)
    ensures Fresh(Last(log[..c], At(log[j])), log[j])
  {
    if Last(log[..c], At(log[j])).Some? {
      var i := LastIsMember(log[..c], At(log[j]));
      assert log[i] == log[..c][i];
    }
  }

  /**
   Any event of the batch, judged against the snapshot: its own path, no conflict, and idle exactly if already shown.
   */
  lemma BatchVerdict(name: Naming, node: string, folder: string, log: seq<SyncEvent>, c: nat, j: nat, db: Db)
    requires c <= j < |log| && SingleAuthor(log, folder, node) && Follows(node, log[..c], db)
    ensures var act, e := Reconcile(name, db, log[j]), log[j];
            && act == Decide(name, RowAt(db, At(e)), e) && Concerns(act, e)
            && (Writes(act) ==>
                  TargetOf(act) == At(e) && Rank(EventOf(act, 0)) == Rank(e) && EventOf(act, 0).kind == e.kind &&
                  (e.kind == Upsert ==> EventOf(act, 0).hash == e.hash))
            && (Writes(act) <==> Behind(db, e)) && (Behind(db, e) <==> !Shown(db, e))
  {
    var e := log[j];
    NormalizeIsProjection(e.path);
    FollowsAt(node, log[..c], db, At(e));
    LaterEventIsFresh(log, folder, node, c, j);
    FreshVerdict(name, node, Last(log[..c], At(e)), RowAt(db, At(e)), e, 0);
  }

  lemma ShowsSameContent(x: SyncEvent, y: SyncEvent, row: Option<FileRecord>)
    requires x.kind == y.kind && (x.kind == Upsert ==> x.hash == y.hash)
    ensures Shows(Some(x), row) <==> Shows(Some(y), row)
  {}

  /** A content that is shown and one that is not differ, also on a row written since. */
  lemma ShownAndNotDiffer(shown: SyncEvent, other: SyncEvent, row: Option<FileRecord>, x: SyncEvent,
                          after: Option<FileRecord>)
    requires Shows(Some(shown), row) && !Shows(Some(other), row) && Shows(Some(x), after)
    requires x.kind == other.kind && (x.kind == Upsert ==> x.hash == other.hash)
    ensures !Shows(Some(shown), after)
  {}

  /**
   The verdicts of a batch write exactly the events the store is behind of, each on its own path and with its own
   content.
   */
  ghost predicate WritesNew(evs: seq<SyncEvent>, acts: seq<Action>, db: Db)
    requires |evs| == |acts|
  {
    forall i :: 0 <= i < |acts| ==>
      (Writes(acts[i]) <==> Behind(db, evs[i])) && (Behind(db, evs[i]) <==> !Shown(db, evs[i])) &&
      (Writes(acts[i]) ==> TargetOf(acts[i]) == At(evs[i]) && Rank(EventOf(acts[i], 0)) == Rank(evs[i]) &&
                           EventOf(acts[i], 0).kind == evs[i].kind &&
                           (evs[i].kind == Upsert ==> EventOf(acts[i], 0).hash == evs[i].hash))
  }

  lemma BatchWritesNew(name: Naming, node: string, folder: string, log: seq<SyncEvent>, c: nat, db: Db)
    requires c <= |log| && SingleAuthor(log, folder, node) && Follows(node, log[..c], db)
    ensures WritesNew(log[c..], ReconcileAll(name, db, log[c..]), db)
  {
    hide SingleAuthor, Follows, Decide, Shown, Behind, EventOf, Concerns;
    var acts := ReconcileAll(name, db, log[c..]);
    forall i | 0 <= i < |acts|
      ensures (Writes(acts[i]) <==> Behind(db, log[c..][i])) && (Behind(db, log[c..][i]) <==> !Shown(db, log[c..][i]))
      ensures Writes(acts[i]) ==> TargetOf(acts[i]) == At(log[c..][i]) &&
                                  Rank(EventOf(acts[i], 0)) == Rank(log[c..][i]) &&
                                    EventOf(acts[i], 0).kind == log[c..][i].kind &&
                                  (log[c..][i].kind == Upsert ==> EventOf(acts[i], 0).hash == log[c..][i].hash)
    {
      assert log[c..][i] == log[c + i];
      BatchVerdict(name, node, folder, log, c, c + i, db);
    }
  }

  lemma PathShownIff(evs: seq<SyncEvent>, acts: seq<Action>, db: Db, envs: seq<Env>, j: nat)
    requires |evs| == |acts| == |envs| && IsLastOfPath(evs, j) && WritesNew(evs, acts, db)
    requires ApplyAll(db, acts, envs).done == |acts|
    ensures Shown(ApplyAll(db, acts, envs).db, evs[j]) <==> WinsAt(evs, db, j)
  {
    hide Shows, EventOf, ApplyAll, Behind;
    var k := At(evs[j]);
    var after, w := RowAt(ApplyAll(db, acts, envs).db, k), LastWrite(acts, k);
    AfterAll(db, acts, envs, k);
    if Writes(acts[j]) {
      assert w == j;
      ShowsSameContent(EventOf(acts[j], 0), evs[j], after);
    } else if w >= 0 {
      assert w < j;
      ShownAndNotDiffer(evs[j], evs[w], RowAt(db, k), EventOf(acts[w], 0), after);
    }
  }

  lemma PullGoesThrough(name: Naming, node: string, folder: string, log: seq<SyncEvent>, c: nat, db: Db, envs: seq<Env>)
    requires c <= |log| && |envs| == |log| - c && AllSent(envs) && folder in db.folders
    requires SingleAuthor(log, folder, node) && Follows(node, log[..c], db)
    ensures PullAll(name, db, log[c..], envs).done == |envs|
  {
    hide SingleAuthor, Follows, Reconcile, Concerns;
    var acts := ReconcileAll(name, db, log[c..]);
    forall j | 0 <= j < |acts| ensures Concerns(acts[j], log[c + j]) {
      BatchVerdict(name, node, folder, log, c, c + j, db);
    }
    FollowerRowIds(node, log, c, db);
    AllGoThrough(log, folder, node, c, db, acts, envs);
  }

  lemma UntouchedPathShown(name: Naming, node: string, folder: string, log: seq<SyncEvent>, c: nat, db: Db,
                           envs: seq<Env>, k: Key)
    requires c <= |log| && |envs| == |log| - c
    requires SingleAuthor(log, folder, node) && Follows(node, log[..c], db)
    requires PullAll(name, db, log[c..], envs).done == |envs|
    requires !exists j: nat :: IsLastOfPath(log[c..], j) && At(log[c..][j]) == k
    ensures Shows(Last(log, k), RowAt(PullAll(name, db, log[c..], envs).db, k))
  {
    hide SingleAuthor, Follows, Shows, Shown, Reconcile, Concerns, ApplyAll, EventOf;
    var acts := ReconcileAll(name, db, log[c..]);
    PathNotInBatch(log, c, k);
    forall i | 0 <= i < |acts| ensures LeavesAlone(acts[i], k) {
      BatchVerdict(name, node, folder, log, c, c + i, db);
      assert At(log[c..][i]) != k;
    }
    AfterAll(db, acts, envs, k);
    FollowsAt(node, log[..c], db, k);
  }

  /** Exactly when a complete pull, with any repeats of paths, leaves the consumer showing the author's log. */
  lemma SnapshotPullShowsLogIff(name: Naming, node: string, folder: string, log: seq<SyncEvent>, c: nat, db: Db,
                                envs: seq<Env>)
    requires c <= |log| && |envs| == |log| - c && AllSent(envs) && folder in db.folders
    requires SingleAuthor(log, folder, node) && Follows(node, log[..c], db)
    ensures PullAll(name, db, log[c..], envs).done == |envs|
    ensures ShowsLog(log, PullAll(name, db, log[c..], envs).db) <==> LastWins(log[c..], db)
  {
    hide SingleAuthor, Follows, Shows, ReconcileAll, ApplyAll, IsLastOfPath, WritesNew, WinsAt;
    var evs := log[c..];
    PullGoesThrough(name, node, folder, log, c, db, envs);
    BatchWritesNew(name, node, folder, log, c, db);
    var after := PullAll(name, db, evs, envs).db;
    forall j: nat | j < |evs| && IsLastOfPath(evs, j)
      ensures Last(log, At(evs[j])) == Some(evs[j]) && (Shown(after, evs[j]) <==> WinsAt(evs, db, j))
    {
      LastOfPath(log, c, j);
      PathShownIff(evs, ReconcileAll(name, db, evs), db, envs, j);
    }
    if LastWins(evs, db) {
      forall k ensures Shows(Last(log, k), RowAt(after, k)) {
        if j: nat :| j < |evs| && IsLastOfPath(evs, j) && At(evs[j]) == k {
        } else {
          IndexInRange(evs);
          UntouchedPathShown(name, node, folder, log, c, db, envs, k);
        }
      }
    }
  }

  lemma IndexInRange(evs: seq<SyncEvent>)
    ensures forall j: nat :: IsLastOfPath(evs, j) ==> j < |evs|
  {}

  lemma LastOfPath(log: seq<SyncEvent>, c: nat, j: nat)
    requires c <= |log| && IsLastOfPath(log[c..], j)
    ensures Last(log, At(log[c + j])) == Some(log[c + j])
  {
    var n, k := c + j, At(log[c + j]);
    forall i | n + 1 <= i < |log| ensures At(log[i]) != k {
      assert log[c..][i - c] == log[i];
    }
    LastUnchanged(log, n + 1, |log|, k);
    assert log[..|log|] == log && log[..n + 1] == log[..n] + [log[n]];
    LastAppend(log[..n], log[n], k);
  }

  lemma {:induction false} SomeLastOfPath(evs: seq<SyncEvent>, i: nat) returns (j: nat)
    requires i < |evs|
    ensures IsLastOfPath(evs, j) && At(evs[j]) == At(evs[i]) && i <= j
    decreases |evs| - i
  {
    if IsLastOfPath(evs, i) {
      j := i;
    } else {
      var n :| i < n < |evs| && At(evs[n]) == At(evs[i]);
      j := SomeLastOfPath(evs, n);
    }
  }

  lemma PathNotInBatch(log: seq<SyncEvent>, c: nat, k: Key)
    requires c <= |log| && !exists j: nat :: IsLastOfPath(log[c..], j) && At(log[c..][j]) == k
    ensures forall i :: 0 <= i < |log[c..]| ==> At(log[c..][i]) != k
    ensures Last(log, k) == Last(log[..c], k)
  {
    var evs := log[c..];
    forall i | 0 <= i < |evs| ensures At(evs[i]) != k {
      var j := SomeLastOfPath(evs, i);
    }
    forall i | c <= i < |log| ensures At(log[i]) != k {
      assert evs[i - c] == log[i];
    }
    LastUnchanged(log, c, |log|, k);
    assert log[..|log|] == log;
  }

  /** A file created and deleted within one batch stays alive on a consumer that did not have it. */
  lemma DeleteInSameBatchIsLost(name: Naming, node: string, folder: string, log: seq<SyncEvent>, c: nat, i: nat, j: nat,
                                db: Db, envs: seq<Env>)
    requires c <= |log| && |envs| == |log| - c && AllSent(envs) && folder in db.folders
    requires SingleAuthor(log, folder, node) && Follows(node, log[..c], db)
    requires i < j && IsLastOfPath(log[c..], j) && At(log[c + i]) == At(log[c + j]) && At(log[c + j]) !in db.files
    requires log[c + i].kind == Upsert && log[c + j].kind == Delete
    ensures var after := PullAll(name, db, log[c..], envs);
            after.done == |envs| && At(log[c + j]) in after.db.files && !after.db.files[At(log[c + j])].isDeleted
  {
    hide SingleAuthor, Follows, ReconcileAll, ApplyAll, WritesNew;
    PullGoesThrough(name, node, folder, log, c, db, envs);
    BatchWritesNew(name, node, folder, log, c, db);
    PathShownIff(log[c..], ReconcileAll(name, db, log[c..]), db, envs, j);
    assert log[c..][i] == log[c + i] && log[c..][j] == log[c + j];
  }

  lemma AbsentPathVerdicts(name: Naming, e: SyncEvent)
    ensures Writes(Decide(name, None, e)) <==> e.kind == Upsert
  {}

  // ---------- such a pull keeps the store's invariant and leaves a follower ----------

  /** No row is at or above an event of the log that is still to come. */
  ghost predicate Below(log: seq<SyncEvent>, c: nat, db: Db) {
    forall i :: c <= i < |log| && At(log[i]) in db.files ==> RowRank(db.files[At(log[i])]) < Rank(log[i])
  }

  /** No row is above the last event of its path. */
  ghost predicate Bounded(log: seq<SyncEvent>, db: Db) {
    forall k :: k in db.files ==> k in Replay(log) && db.files[k].version <= Replay(log)[k].version
  }

  ghost predicate Consistent(log: seq<SyncEvent>, folder: string, node: string, c: nat, db: Db) {
    Inv(db) && folder in db.folders && RowIdsFrom(log, db) && Below(log, c, db) && Bounded(log, db) &&
    Retells(log, db.log, node)
  }

  /** A delete is only carried out on a row that is there. */
  predicate Grounded(act: Action, e: SyncEvent, db: Db) {
    act.DeleteLocal? ==> At(e) in db.files
  }

  lemma ConcernedCarryInv(log: seq<SyncEvent>, folder: string, node: string, i: nat, db: Db, act: Action, env: Env)
    requires i < |log| && SingleAuthor(log, folder, node) && Concerns(act, log[i]) && Grounded(act, log[i], db)
    requires Consistent(log, folder, node, i, db) && Carry(db, act, env).Some?
    ensures Inv(Carry(db, act, env).value)
  {
    NormalizeIsProjection(log[i].path);
    if Writes(act) {
      var x := EventOf(act, env.now);
      EventOfIsNormal(act, env.now);
      assert At(x) == At(log[i]) && x.fileId == log[i].fileId && Rank(x) == Rank(log[i]);
      hide Inv, PutRemote, BuryRemote;
      if act.DeleteLocal? {
        BuryRemoteKeepsInv(db, x, env.now);
      } else {
        PutRemoteKeepsInvIff(db, x);
      }
    }
  }

  lemma WrittenRow(log: seq<SyncEvent>, i: nat, db: Db, db': Db, row: FileRecord)
    requires i < |log| && Progressive(log) && Below(log, i, db) && Bounded(log, db)
    requires db'.files == db.files[At(log[i]) := row] && RowRank(row) == Rank(log[i])
    ensures Below(log, i + 1, db') && Bounded(log, db')
  {
    ReplayIsTop(log, i);
  }

  lemma RetellsWritten(log: seq<SyncEvent>, i: nat, own: seq<SyncEvent>, x: SyncEvent, node: string)
    requires i < |log| && FaithfulIds(log) && Retells(log, own, node)
    requires At(x) == At(log[i]) && x.fileId == log[i].fileId && IsNormal(x.path) &&
             (x.kind == Upsert ==> x.origin == node)
    ensures Retells(log, own + [x], node)
  {
    ReplayIsTop(log, i);
    var j := ReplayFrom(log, At(x));
  }

  lemma ConcernedCarryRows(log: seq<SyncEvent>, folder: string, node: string, i: nat, db: Db, act: Action, env: Env)
    requires i < |log| && SingleAuthor(log, folder, node) && Concerns(act, log[i]) && Grounded(act, log[i], db)
    requires Consistent(log, folder, node, i, db) && Carry(db, act, env).Some?
    ensures var db' := Carry(db, act, env).value;
            Below(log, i + 1, db') && Bounded(log, db') && Retells(log, db'.log, node) &&
              db.files.Keys <= db'.files.Keys
  {
    NormalizeIsProjection(log[i].path);
    hide Inv, RowIdsFrom, Below, Bounded, Retells, Progressive, FaithfulIds;
    if Writes(act) {
      var x, db' := EventOf(act, env.now), Carry(db, act, env).value;
      assert At(x) == At(log[i]) && x.fileId == log[i].fileId && Rank(x) == Rank(log[i]);
      EventOfIsNormal(act, env.now);
      CarryShape(db, act, env);
      hide Carry;
      WrittenRow(log, i, db, db', db'.files[At(x)]);
      RetellsWritten(log, i, db.log, x.(seqNo := db.nextSeq), node);
    } else {
      CarryIdle(db, act, env);
      BelowLater(log, i, db);
    }
  }

  lemma BelowLater(log: seq<SyncEvent>, i: nat, db: Db)
    requires Below(log, i, db)
    ensures Below(log, i + 1, db)
  {}

  lemma {:induction false} AllStayConsistent(log: seq<SyncEvent>, folder: string, node: string, c: nat, db: Db,
                                             acts: seq<Action>, envs: seq<Env>)
    requires c <= |log| && |acts| == |envs| == |log| - c && AllSent(envs)
    requires SingleAuthor(log, folder, node) && Consistent(log, folder, node, c, db)
    requires forall j :: 0 <= j < |acts| ==> Concerns(acts[j], log[c + j]) && Grounded(acts[j], log[c + j], db)
    ensures Consistent(log, folder, node, |log|, ApplyAll(db, acts, envs).db)
    decreases |acts|
  {
    hide SingleAuthor, Inv, RowIdsFrom, Below, Bounded, Retells, Concerns, Carry;
    if acts != [] {
      assert Concerns(acts[0], log[c + 0]) && Grounded(acts[0], log[c + 0], db);
      ConcernedCarry(log, folder, node, c, db, acts[0], envs[0]);
      ConcernedCarryInv(log, folder, node, c, db, acts[0], envs[0]);
      ConcernedCarryRows(log, folder, node, c, db, acts[0], envs[0]);
      var db' := Carry(db, acts[0], envs[0]).value;
      forall j | 0 <= j < |acts[1..]|
        ensures Concerns(acts[1..][j], log[c + 1 + j]) && Grounded(acts[1..][j], log[c + 1 + j], db')
      {
        assert Concerns(acts[j + 1], log[c + (j + 1)]) && Grounded(acts[j + 1], log[c + (j + 1)], db);
      }
      AllStayConsistent(log, folder, node, c + 1, db', acts[1..], envs[1..]);
    }
  }

  lemma FollowerIsConsistent(node: string, folder: string, log: seq<SyncEvent>, c: nat, db: Db)
    requires c <= |log| && SingleAuthor(log, folder, node) && Follows(node, log[..c], db) && Inv(db) &&
             folder in db.folders
    ensures Consistent(log, folder, node, c, db)
  {
    hide SingleAuthor, Inv, Follows, RowIdsFrom, Below, Bounded, Retells;
    FollowerRowIds(node, log, c, db);
    FollowerIsBelow(node, folder, log, c, db);
    FollowerRetells(node, folder, log, c, db);
  }

  lemma FollowerIsBelow(node: string, folder: string, log: seq<SyncEvent>, c: nat, db: Db)
    requires c <= |log| && SingleAuthor(log, folder, node) && Follows(node, log[..c], db) && Inv(db)
    ensures Below(log, c, db) && Bounded(log, db)
  {
    hide Follows, FaithfulIds;
    forall k | k in db.files
      ensures k in Replay(log) && db.files[k].version <= Replay(log)[k].version
      ensures forall i :: c <= i < |log| && At(log[i]) == k ==> RowRank(db.files[k]) < Rank(log[i])
    {
      FollowsAt(node, log[..c], db, k);
      var a := LastIsMember(log[..c], k);
      assert log[a] == log[..c][a];
      ReplayIsTop(log, a);
    }
  }

  lemma FollowerRetells(node: string, folder: string, log: seq<SyncEvent>, c: nat, db: Db)
    requires c <= |log| && SingleAuthor(log, folder, node) && Follows(node, log[..c], db)
    ensures Retells(log, db.log, node)
  {
    hide Progressive;
    forall i | 0 <= i < |db.log|
      ensures At(db.log[i]) in Replay(log) && db.log[i].fileId == Replay(log)[At(db.log[i])].fileId
    {
      var k := At(db.log[i]);
      var a := ReplayFrom(log[..c], k);
      assert log[a] == log[..c][a];
      ReplayIsTop(log, a);
      var b := ReplayFrom(log, k);
    }
  }

  lemma ConsistentAndShownFollows(node: string, folder: string, log: seq<SyncEvent>, db: Db)
    requires SingleAuthor(log, folder, node) && Consistent(log, folder, node, |log|, db) && ShowsLog(log, db)
    requires NoneBehind(log, db)
    ensures Follows(node, log, db)
  {
    hide SingleAuthor, Schema, Progressive, RowIdsFrom, Below, NoneBehind;
    forall k ensures Reflects(node, Last(log, k), RowAt(db, k)) {
      assert Shows(Last(log, k), RowAt(db, k));
      if k in db.files {
        var i := ReplayFrom(db.log, k);
        assert Matches(db.files[k], db.log[i]);
      }
    }
  }

  /** Where the last event of every path wins, the store ends up behind no event of the log. */
  lemma NoneBehindAfter(node: string, folder: string, log: seq<SyncEvent>, c: nat, db: Db, acts: seq<Action>,
                        envs: seq<Env>)
    requires c <= |log| && |acts| == |envs| == |log| - c && ApplyAll(db, acts, envs).done == |acts|
    requires Progressive(log) && NoneBehind(log[..c], db) && WritesNew(log[c..], acts, db) && LastWins(log[c..], db)
    requires forall j :: 0 <= j < |acts| ==> Grounded(acts[j], log[c + j], db)
    ensures NoneBehind(log, ApplyAll(db, acts, envs).db)
  {
    hide ApplyAll, EventOf, Shown, IsLastOfPath, LastWins;
    var evs, after := log[c..], ApplyAll(db, acts, envs).db;
    forall j | 0 <= j < |acts| && acts[j].DeleteLocal? ensures TargetOf(acts[j]) in db.files {
      assert Grounded(acts[j], log[c + j], db) && evs[j] == log[c + j];
    }
    forall i | 0 <= i < |log| ensures !Behind(after, log[i]) {
      var k := At(log[i]);
      var w := LastWrite(acts, k);
      AfterAll(db, acts, envs, k);
      if w < 0 {
        NotBehindBefore(log, c, i, db, acts);
        SameRowSameBehind(db, after, log[i]);
      } else {
        AfterAllRank(db, acts, envs, k);
        LastWriteIsLast(log, c, i, db, acts);
      }
    }
  }

  lemma NotBehindBefore(log: seq<SyncEvent>, c: nat, i: nat, db: Db, acts: seq<Action>)
    requires c <= |log| && i < |log| && |acts| == |log| - c && LastWrite(acts, At(log[i])) < 0
    requires NoneBehind(log[..c], db) && WritesNew(log[c..], acts, db) && LastWins(log[c..], db)
    ensures !Behind(db, log[i])
  {
    hide EventOf, Shown, Behind, IsLastOfPath;
    if i < c {
      assert log[..c][i] == log[i];
    } else {
      assert log[c..][i - c] == log[i];
      var j := SomeLastOfPath(log[c..], i - c);
      IndexInRange(log[c..]);
      assert LeavesAlone(acts[j], At(log[i]));
      assert WinsAt(log[c..], db, j);
    }
  }

  lemma LastWriteIsLast(log: seq<SyncEvent>, c: nat, i: nat, db: Db, acts: seq<Action>)
    requires c <= |log| && i < |log| && |acts| == |log| - c && 0 <= LastWrite(acts, At(log[i]))
    requires Progressive(log) && WritesNew(log[c..], acts, db) && LastWins(log[c..], db)
    ensures var w := LastWrite(acts, At(log[i]));
            At(log[c..][w]) == At(log[i]) && Rank(log[i]) <= Rank(log[c..][w]) &&
              Rank(EventOf(acts[w], 0)) == Rank(log[c..][w])
  {
    hide EventOf, Shown, Behind;
    var evs, w := log[c..], LastWrite(acts, At(log[i]));
    var j := SomeLastOfPath(evs, w);
    assert WinsAt(evs, db, j);
    assert j == w;
    assert evs[w] == log[c + w] && (c <= i ==> evs[i - c] == log[i]);
  }

  lemma SameRowSameBehind(db: Db, after: Db, e: SyncEvent)
    requires RowAt(after, At(e)) == RowAt(db, At(e)) && !Behind(db, e)
    ensures !Behind(after, e)
  {}

  lemma SnapshotActsAreGrounded(name: Naming, node: string, folder: string, log: seq<SyncEvent>, c: nat, j: nat, db: Db)
    requires c <= j < |log| && SingleAuthor(log, folder, node) && Follows(node, log[..c], db)
    ensures var act := Reconcile(name, db, log[j]); Concerns(act, log[j]) && Grounded(act, log[j], db)
  {
    BatchVerdict(name, node, folder, log, c, j, db);
    AbsentPathVerdicts(name, log[j]);
    hide SingleAuthor, Follows, Reconcile;
  }

  lemma FollowerFacts(node: string, folder: string, log: seq<SyncEvent>, front: seq<SyncEvent>, db: Db)
    requires SingleAuthor(log, folder, node) && Follows(node, front, db)
    ensures Progressive(log) && NoneBehind(front, db)
  {}

  /**
   A complete pull, with repeated paths, leaves a follower of the whole log when the last event of every path wins.
   */
  lemma SnapshotPullFollows(name: Naming, node: string, folder: string, log: seq<SyncEvent>, c: nat, db: Db,
                            envs: seq<Env>)
    requires c <= |log| && |envs| == |log| - c && AllSent(envs) && folder in db.folders && Inv(db)
    requires SingleAuthor(log, folder, node) && Follows(node, log[..c], db)
    requires LastWins(log[c..], db)
    ensures var r := PullAll(name, db, log[c..], envs);
            r.done == |envs| && Inv(r.db) && folder in r.db.folders && Follows(node, log, r.db)
    ensures forall i :: 0 <= i < |envs| ==> !ReconcileAll(name, db, log[c..])[i].Conflict?
  {
    hide SingleAuthor, Follows, Inv, LastWins, ShowsLog, Reconcile, Grounded, RowIdsFrom, Below, Bounded, Retells,
         Progressive, NoneBehind, WritesNew;
    var acts := ReconcileAll(name, db, log[c..]);
    SnapshotPullShowsLogIff(name, node, folder, log, c, db, envs);
    forall j | 0 <= j < |acts| ensures Concerns(acts[j], log[c + j]) && Grounded(acts[j], log[c + j], db) {
      SnapshotActsAreGrounded(name, node, folder, log, c, c + j, db);
    }
    FollowerIsConsistent(node, folder, log, c, db);
    AllStayConsistent(log, folder, node, c, db, acts, envs);
    BatchWritesNew(name, node, folder, log, c, db);
    FollowerFacts(node, folder, log, log[..c], db);
    NoneBehindAfter(node, folder, log, c, db, acts, envs);
    ConsistentAndShownFollows(node, folder, log, ApplyAll(db, acts, envs).db);
  }
}
