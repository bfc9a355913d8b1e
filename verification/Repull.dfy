/**
 Pulling again what was already pulled. The cursor is kept in memory only (coordinator.rs `last_seen_seqs`), so
 a consumer that restarts is sent its producer's whole log again and judges it against what it has. This
 module says exactly when that meets a conflict, and when it is harmless.
 */
module Repull {
  import opened Outcomes
  import opened Paths
  import opened Catalogue
  import opened Reconciler
  import opened Batch
  import opened Lineage
  import opened Snapshot

  /** The path is live with another content than this upsert's. */
  predicate Contradicts(db: Db, e: SyncEvent) {
    e.kind == Upsert && At(e) in db.files && !db.files[At(e)].isDeleted && db.files[At(e)].hash != e.hash
  }

  /** Such an upsert that is not newer than the row. */
  predicate Outdated(db: Db, e: SyncEvent) {
    Contradicts(db, e) && e.version <= db.files[At(e)].version
  }

  ghost predicate NoneOutdated(evs: seq<SyncEvent>, db: Db) {
    forall e :: e in evs ==> !Outdated(db, e)
  }

  /** An event that is already followed is judged idle, or a conflict if the path is live with another content. */
  lemma KnownVerdict(name: Naming, node: string, folder: string, log: seq<SyncEvent>, m: nat, i: nat, db: Db)
    requires i < m <= |log| && SingleAuthor(log, folder, node) && Follows(node, log[..m], db)
    ensures var act := Reconcile(name, db, log[i]);
            && (Writes(act) <==> act.Conflict?) && (act.Conflict? <==> Contradicts(db, log[i]))
            && (Contradicts(db, log[i]) <==> Outdated(db, log[i]))
    ensures !Behind(db, log[i])
  {
    var e := log[i];
    hide Progressive, FaithfulIds, Retells, Reflects, Normalize;
    NormalizeIsProjection(e.path);
    assert log[..m][i] == e;
    assert !Behind(db, e);
    hide NoneBehind, Follows, SingleAuthor;
    assert GetFile(db, e.folder, e.path) == RowAt(db, At(e));
  }

  /** An event that is new is never a conflict. */
  lemma NewVerdict(name: Naming, node: string, folder: string, log: seq<SyncEvent>, m: nat, i: nat, db: Db)
    requires m <= i < |log| && SingleAuthor(log, folder, node) && Follows(node, log[..m], db)
    ensures !Reconcile(name, db, log[i]).Conflict? && !Outdated(db, log[i])
  {
    BatchVerdict(name, node, folder, log, m, i, db);
    hide SingleAuthor, Follows, Reconcile, Decide;
  }

  /**
   Exactly when a pull from any cursor at or before what is already followed meets a conflict: some event sent again
   is an upsert whose path is live with another content. In terms of the rows alone, such an upsert is not newer.
   */
  lemma RepullConflictIff(name: Naming, node: string, folder: string, log: seq<SyncEvent>, c: nat, m: nat, db: Db)
    requires c <= m <= |log| && SingleAuthor(log, folder, node) && Follows(node, log[..m], db)
    ensures (exists act :: act in ReconcileAll(name, db, log[c..]) && act.Conflict?) <==>
              exists e :: e in log[c..m] && Contradicts(db, e)
    ensures forall e :: e in log[c..] ==> (Reconcile(name, db, e).Conflict? <==> Outdated(db, e))
  {
    hide SingleAuthor, Follows, Reconcile, Contradicts, Outdated;
    var acts := ReconcileAll(name, db, log[c..]);
    forall i | c <= i < |log|
      ensures log[c..][i - c] == log[i] && acts[i - c] == Reconcile(name, db, log[i])
      ensures Reconcile(name, db, log[i]).Conflict? <==> Outdated(db, log[i])
      ensures if i < m then Outdated(db, log[i]) <==> Contradicts(db, log[i]) else !Outdated(db, log[i])
    {
      if i < m {
        KnownVerdict(name, node, folder, log, m, i, db);
      } else {
        NewVerdict(name, node, folder, log, m, i, db);
      }
    }
    assert forall i :: 0 <= i < |acts| ==> acts[i] == Reconcile(name, db, log[c + i]);
    SomeConflictIff(acts, log, c, m, db);
  }

  lemma SomeConflictIff(acts: seq<Action>, log: seq<SyncEvent>, c: nat, m: nat, db: Db)
    requires c <= m <= |log| && |acts| == |log| - c
    requires forall i :: 0 <= i < |acts| ==> (acts[i].Conflict? <==> c + i < m && Contradicts(db, log[c + i]))
    ensures (exists act :: act in acts && act.Conflict?) <==> exists e :: e in log[c..m] && Contradicts(db, e)
  {
    hide Contradicts;
    if act :| act in acts && act.Conflict? {
      var i :| 0 <= i < |acts| && acts[i] == act;
      assert log[c..m][i] == log[c + i];
    }
    if e :| e in log[c..m] && Contradicts(db, e) {
      var i :| 0 <= i < m - c && log[c..m][i] == e;
      assert log[c + i] == e;
      assert acts[i].Conflict?;
    }
  }

  /** An edit that a later one replaced is a conflict for whoever has both and is sent it again. */
  lemma ReplacedEditConflicts(name: Naming, node: string, folder: string, log: seq<SyncEvent>, db: Db, a: nat, b: nat)
    requires SingleAuthor(log, folder, node) && Follows(node, log, db)
    requires a < b < |log| && IsLastOfPath(log, b) && At(log[a]) == At(log[b])
    requires log[a].kind == log[b].kind == Upsert && log[a].hash != log[b].hash
    ensures Reconcile(name, db, log[a]).Conflict?
  {
    hide SingleAuthor, Follows, Reconcile, IsLastOfPath;
    assert log[..|log|] == log && log[0..] == log;
    LastOfPath(log, 0, b);
    FollowsAt(node, log, db, At(log[b]));
    KnownVerdict(name, node, folder, log, |log|, a, db);
  }

  // ---------- a harmless repull ----------

  lemma {:induction false} IdleActs(db: Db, acts: seq<Action>, envs: seq<Env>, p: nat)
    requires |acts| == |envs| && p <= |acts| && forall i :: 0 <= i < p ==> !Writes(acts[i])
    ensures var rest := ApplyAll(db, acts[p..], envs[p..]);
            ApplyAll(db, acts, envs) == Outcome(rest.db, p + rest.done)
    decreases p
  {
    hide Writes;
    if p == 0 {
      assert acts[0..] == acts && envs[0..] == envs;
    } else {
      CarryIdle(db, acts[0], envs[0]);
      IdleActs(db, acts[1..], envs[1..], p - 1);
      assert acts[1..][p - 1..] == acts[p..] && envs[1..][p - 1..] == envs[p..];
    }
  }

  /** Without outdated upserts, what is sent again does nothing, and the pull is the pull of what is new. */
  lemma RepullIsPullOfTheRest(name: Naming, node: string, folder: string, log: seq<SyncEvent>, c: nat, m: nat, db: Db,
                              envs: seq<Env>)
    requires c <= m <= |log| && |envs| == |log| - c && NoneOutdated(log[c..], db)
    requires SingleAuthor(log, folder, node) && Follows(node, log[..m], db)
    ensures var rest := PullAll(name, db, log[m..], envs[m - c..]);
            PullAll(name, db, log[c..], envs) == Outcome(rest.db, m - c + rest.done)
  {
    hide SingleAuthor, Follows, Reconcile, Outdated, ApplyAll;
    var acts := ReconcileAll(name, db, log[c..]);
    forall i | 0 <= i < m - c ensures !Writes(acts[i]) {
      assert log[c..][i] == log[c + i];
      KnownVerdict(name, node, folder, log, m, c + i, db);
    }
    IdleActs(db, acts, envs, m - c);
    assert acts[m - c..] == ReconcileAll(name, db, log[m..]) by {
      assert log[c..][m - c..] == log[m..];
    }
  }

  lemma SameLastWins(name: Naming, node: string, folder: string, log: seq<SyncEvent>, c: nat, m: nat, db: Db)
    requires c <= m <= |log| && SingleAuthor(log, folder, node) && Follows(node, log[..m], db)
    ensures LastWins(log[c..], db) <==> LastWins(log[m..], db)
  {
    hide SingleAuthor, Follows, Behind, LastWins, Reconcile, Contradicts, Outdated;
    forall i | 0 <= i < m - c ensures !Behind(db, log[c..][i]) {
      KnownVerdict(name, node, folder, log, m, c + i, db);
      assert log[c..][i] == log[c + i];
    }
    SuffixLastWins(log[c..], m - c, db);
    assert log[c..][m - c..] == log[m..];
  }

  /** Events at the front that the store is not behind of make no difference. */
  lemma SuffixLastWins(evs: seq<SyncEvent>, d: nat, db: Db)
    requires d <= |evs| && forall i :: 0 <= i < d ==> !Behind(db, evs[i])
    ensures LastWins(evs, db) <==> LastWins(evs[d..], db)
  {
    hide Behind;
    var rest := evs[d..];
    assert forall i :: 0 <= i < |rest| ==> rest[i] == evs[d + i];
    forall j | 0 <= j < |rest| ensures IsLastOfPath(rest, j) <==> IsLastOfPath(evs, d + j) {
      assert forall i :: d + j < i < |evs| ==> evs[i] == rest[i - d];
    }
    hide IsLastOfPath;
    forall j | 0 <= j < |rest| ensures WinsAt(rest, db, j) <==> WinsAt(evs, db, d + j) {
      assert forall i :: d <= i < d + j ==> evs[i] == rest[i - d];
    }
    forall j | 0 <= j < d ensures WinsAt(evs, db, j) {
    }
    hide WinsAt;
    if LastWins(evs, db) {
      forall j | 0 <= j < |rest| && IsLastOfPath(rest, j) ensures WinsAt(rest, db, j) {
        assert IsLastOfPath(evs, d + j) && WinsAt(evs, db, d + j);
      }
    }
    if LastWins(rest, db) {
      forall j | d <= j < |evs| && IsLastOfPath(evs, j) ensures WinsAt(evs, db, j) {
        assert IsLastOfPath(rest, j - d) && WinsAt(rest, db, j - d);
      }
    }
  }

  /** Exactly when a complete repull without outdated upserts leaves the consumer showing the author's log. */
  lemma RepullShowsLogIff(name: Naming, node: string, folder: string, log: seq<SyncEvent>, c: nat, m: nat, db: Db,
                          envs: seq<Env>)
    requires c <= m <= |log| && |envs| == |log| - c && AllSent(envs) && folder in db.folders
    requires SingleAuthor(log, folder, node) && Follows(node, log[..m], db) && NoneOutdated(log[c..], db)
    ensures PullAll(name, db, log[c..], envs).done == |envs|
    ensures ShowsLog(log, PullAll(name, db, log[c..], envs).db) <==> LastWins(log[c..], db)
  {
    hide SingleAuthor, Follows, NoneOutdated, LastWins, ShowsLog, PullAll;
    RepullIsPullOfTheRest(name, node, folder, log, c, m, db, envs);
    SnapshotPullShowsLogIff(name, node, folder, log, m, db, envs[m - c..]);
    SameLastWins(name, node, folder, log, c, m, db);
  }

  /** And such a repull keeps the invariant, meets no conflict and leaves a follower of the whole log. */
  lemma RepullFollows(name: Naming, node: string, folder: string, log: seq<SyncEvent>, c: nat, m: nat, db: Db,
                      envs: seq<Env>)
    requires c <= m <= |log| && |envs| == |log| - c && AllSent(envs) && folder in db.folders && Inv(db)
    requires SingleAuthor(log, folder, node) && Follows(node, log[..m], db)
    requires NoneOutdated(log[c..], db) && LastWins(log[c..], db)
    ensures var r := PullAll(name, db, log[c..], envs);
            r.done == |envs| && Inv(r.db) && folder in r.db.folders && Follows(node, log, r.db)
    ensures forall act :: act in ReconcileAll(name, db, log[c..]) ==> !act.Conflict?
  {
    hide SingleAuthor, Follows, Outdated, LastWins, Inv, PullAll, Reconcile;
    RepullIsPullOfTheRest(name, node, folder, log, c, m, db, envs);
    SameLastWins(name, node, folder, log, c, m, db);
    SnapshotPullFollows(name, node, folder, log, m, db, envs[m - c..]);
    RepullConflictIff(name, node, folder, log, c, m, db);
    forall i | c <= i < |log| ensures !Reconcile(name, db, log[i]).Conflict? {
      assert log[c..][i - c] == log[i];
      assert log[i] in log[c..];
    }
  }
  // ---------- why an interrupted pull must be free of repeats ----------

  lemma {:induction false} CutIsPrefix(db: Db, acts: seq<Action>, envs: seq<Env>)
    requires |acts| == |envs|
    ensures var r := ApplyAll(db, acts, envs); ApplyAll(db, acts[..r.done], envs[..r.done]) == r
    decreases |acts|
  {
    hide Carry;
    var n := ApplyAll(db, acts, envs).done;
    if 0 < n {
      CutIsPrefix(Carry(db, acts[0], envs[0]).value, acts[1..], envs[1..]);
      assert acts[..n][1..] == acts[1..][..n - 1] && envs[..n][1..] == envs[1..][..n - 1];
    }
  }

  lemma LastWriteOfCut(evs: seq<SyncEvent>, acts: seq<Action>, db: Db, n: nat, b: nat)
    requires b < n <= |acts| == |evs| && WritesNew(evs, acts, db) && Behind(db, evs[b]) && IsLastOfPath(evs[..n], b)
    ensures LastWrite(acts[..n], At(evs[b])) == b
  {
    hide EventOf, Behind, Shown;
    assert forall i :: b < i < n ==> evs[..n][i] == evs[i];
    var w := LastWrite(acts[..n], At(evs[b]));
    assert acts[..n][b] == acts[b];
    assert 0 <= w ==> acts[..n][w] == acts[w];
  }

  lemma OlderEditConflicts(name: Naming, db: Db, x: SyncEvent, y: SyncEvent)
    requires x.kind == y.kind == Upsert && At(x) == At(y) && IsNormal(x.path) && Rank(x) < Rank(y) && x.hash != y.hash
    requires Shown(db, y) && At(y) in db.files && RowRank(db.files[At(y)]) == Rank(y)
    ensures Reconcile(name, db, x).Conflict?
  {
    NormalizeIsProjection(x.path);
    hide Normalize;
  }

  /** What a cut pull leaves at a path whose last event of those it got to was written. */
  lemma CutShowsLast(name: Naming, node: string, folder: string, log: seq<SyncEvent>, c: nat, db: Db, envs: seq<Env>,
                     b: nat)
    requires c <= |log| && |envs| == |log| - c && SingleAuthor(log, folder, node) && Follows(node, log[..c], db)
    requires IsLastOfPath(log[c..][..PullAll(name, db, log[c..], envs).done], b) && Behind(db, log[c + b])
    ensures var after, y := PullAll(name, db, log[c..], envs).db, log[c + b];
            Shown(after, y) && (y.kind == Upsert ==> At(y) in after.files && RowRank(after.files[At(y)]) == Rank(y))
  {
    hide Follows, SingleAuthor, EventOf, Behind, Shows, Reconcile, Concerns;
    var evs, acts := log[c..], ReconcileAll(name, db, log[c..]);
    var r := ApplyAll(db, acts, envs);
    var n, k := r.done, At(evs[b]);
    assert evs[b] == log[c + b];
    BatchWritesNew(name, node, folder, log, c, db);
    LastWriteOfCut(evs, acts, db, n, b);
    CutIsPrefix(db, acts, envs);
    hide ApplyAll, LastWrite;
    AfterAll(db, acts[..n], envs[..n], k);
    ShowsSameContent(EventOf(acts[b], 0), evs[b], RowAt(r.db, k));
    forall i | 0 <= i < n && acts[..n][i].DeleteLocal? ensures TargetOf(acts[..n][i]) in db.files {
      SnapshotActsAreGrounded(name, node, folder, log, c, c + i, db);
      assert evs[i] == log[c + i];
    }
    AfterAllRank(db, acts[..n], envs[..n], k);
  }

  /**
   If a pull was cut after an edit that replaces an earlier one of the same delta, then that earlier one meets a
   conflict when the delta is judged again.
   */
  lemma RetryBranchesOldEdit(name: Naming, node: string, folder: string, log: seq<SyncEvent>, c: nat, db: Db,
                             envs: seq<Env>, a: nat, b: nat)
    requires c <= |log| && |envs| == |log| - c && SingleAuthor(log, folder, node) && Follows(node, log[..c], db)
    requires IsLastOfPath(log[c..][..PullAll(name, db, log[c..], envs).done], b)
    requires a < b && At(log[c + a]) == At(log[c + b])
    requires log[c + a].kind == log[c + b].kind == Upsert && log[c + a].hash != log[c + b].hash &&
             Behind(db, log[c + b])
    ensures Reconcile(name, PullAll(name, db, log[c..], envs).db, log[c + a]).Conflict?
  {
    hide Follows, PullAll, Reconcile, Behind, FaithfulIds;
    CutShowsLast(name, node, folder, log, c, db, envs, b);
    OlderEditConflicts(name, PullAll(name, db, log[c..], envs).db, log[c + a], log[c + b]);
  }
}
