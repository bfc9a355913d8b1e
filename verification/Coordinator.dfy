/**
 The coordinator's side of a pull, and its handling of file-system events
 (coordinator.rs, with the service methods of service.rs it calls).

 What the network answers is a parameter: whether a connection exists, the manifest response if one
 arrives in time, and for each action whether its pull request could be sent.
 */
module Coordinator {
  import opened Outcomes
  import opened Paths
  import opened Catalogue
  import opened Reconciler
  import opened Batch
  import opened StoreLaws
  import opened VerdictLaws
  import Mesh
  import Store

  // ---------- file-system events ----------

  /** A file was created or changed on disk: recorded unless the catalogue already has this content. */
  function FileSeen(db: Db, folder: string, path: string, size: nat, hash: string, node: string, now: int): (db': Db) {
    match GetFile(db, folder, path)
    case Some(row) =>
      if !row.isDeleted && row.hash == hash && row.size == size then db
      else Recorded(db, folder, path, size, hash, node, now)
    case None => Recorded(db, folder, path, size, hash, node, now)
  }

  function Recorded(db: Db, folder: string, path: string, size: nat, hash: string, node: string, now: int): (db': Db) {
    match LocalUpsert(db, folder, path, size, hash, node, now)
    case Ok(r) => r.0
    case Err(_) => db
  }

  /** A file went away on disk: recorded unless the catalogue already has it deleted. */
  function FileGone(db: Db, folder: string, path: string, node: string, now: int): (db': Db) {
    match GetFile(db, folder, path)
    case Some(row) => if row.isDeleted then db else LocalDelete(db, folder, path, node, now).0
    case None => LocalDelete(db, folder, path, node, now).0
  }

  /** A change on disk is recorded as an edit exactly unless the row is live with this content and size. */
  lemma FileSeenEdits(db: Db, folder: string, path: string, size: nat, hash: string, node: string, now: int)
    returns (r: Result<SyncEvent, DbError>)
    ensures var k, after := Key(folder, Normalize(path)), FileSeen(db, folder, path, size, hash, node, now);
            if HasLive(db, k) && db.files[k].hash == hash && db.files[k].size == size then after == db
            else Edits(db, after, r, k, size, hash, node, now) && (r.Err? <==> EditRefused(db, k, hash))
  {
    hide Normalize, LocalUpsert, Edits, EditRefused;
    LocalUpsertEdits(db, folder, path, size, hash, node, now);
    var out := LocalUpsert(db, folder, path, size, hash, node, now);
    r := if out.Ok? then Ok(out.value.1) else Err(out.error);
  }

  /** A removal on disk is recorded as a delete of the row, if that is live. */
  lemma FileGoneDeletes(db: Db, folder: string, path: string, node: string, now: int) returns (r: Option<SyncEvent>)
    ensures Deletes(db, FileGone(db, folder, path, node, now), r, Key(folder, Normalize(path)), node, now)
  {
    hide Normalize;
    LocalDeleteDeletes(db, folder, path, node, now);
    r := LocalDelete(db, folder, path, node, now).1;
  }

  /** What the coordinator does to the disk on a peer's behalf never comes back as a local edit. */
  lemma EchoIsSilent(name: Naming, db: Db, e: SyncEvent, now: int, node: string, later: int)
    requires RemoteStep(name, db, e, now).Ok?
    ensures var db' := RemoteStep(name, db, e, now).value;
            match Reconcile(name, db, e)
            case DownloadNeeded(folder, _, path, size, hash, _, _) =>
              FileSeen(db', folder, path, size, hash, node, later) == db'
            case Conflict(folder, _, _, copy, size, hash, _, _) =>
              FileSeen(db', folder, copy, size, hash, node, later) == db'
            case DeleteLocal(folder, _, path, _) => FileGone(db', folder, path, node, later) == db'
            case _ => db' == db
  {
    hide PutRemote, BuryRemote, Normalize;
    var act, db' := Reconcile(name, db, e), RemoteStep(name, db, e, now).value;
    if Writes(act) {
      CarryLeaves(db, act, now);
    }
  }

  lemma CarryLeaves(db: Db, act: Action, now: int)
    requires Writes(act) && Apply(db, act, now).Ok?
    ensures var k, db' := TargetOf(act), Apply(db, act, now).value;
            if act.DeleteLocal? then k in db'.files ==> db'.files[k].isDeleted
            else
              k in db'.files && !db'.files[k].isDeleted && db'.files[k].hash == act.hash &&
              db'.files[k].size == act.size
  {}

  // ---------- pulling ----------

  datatype PeerKey = PeerKey(folder: string, peer: string)

  datatype Manifest = Manifest(events: seq<SyncEvent>, latest: nat)

  datatype SyncError = NoManifest | ActionFailed

  /** What one round of reconciling with a peer does to the store and the cursors. */
  function Round(name: Naming, db: Db, registered: set<string>, lastSeen: map<PeerKey, nat>, key: PeerKey,
                 peerLatest: nat, connected: bool, reply: Option<Manifest>, weather: nat -> Env)
    : (r: (Db, map<PeerKey, nat>, Result<(), SyncError>))
  {
    if !connected || key.folder !in registered || CursorOf(lastSeen, key) >= peerLatest then (db, lastSeen, Ok(()))
    else if reply.None? then (db, lastSeen, Err(NoManifest))
    else
      var evs := reply.value.events;
      var out := PullAll(name, db, evs, Mesh.Weather(weather, |evs|));
      if out.done == |evs| then (out.db, lastSeen[key := reply.value.latest], Ok(()))
      else (out.db, lastSeen, Err(ActionFailed))
  }

  function CursorOf(lastSeen: map<PeerKey, nat>, key: PeerKey): (cursor: nat) {
    if key in lastSeen then lastSeen[key] else 0
  }

  /** The round asks its peer: connected, a registered folder, and the cursor below the number of the trigger. */
  predicate Asks(registered: set<string>, lastSeen: map<PeerKey, nat>, key: PeerKey, number: nat, connected: bool) {
    connected && key.folder in registered && if key in lastSeen then lastSeen[key] < number else 0 < number
  }

  /** A round that asks nothing, or gets no manifest, leaves store and cursors; without a manifest it is an error. */
  lemma UnansweredRound(name: Naming, db: Db, registered: set<string>, lastSeen: map<PeerKey, nat>, key: PeerKey,
                        number: nat, connected: bool, reply: Option<Manifest>, weather: nat -> Env)
    requires !Asks(registered, lastSeen, key, number, connected) || reply.None?
    ensures var (after, seen, r) := Round(name, db, registered, lastSeen, key, number, connected, reply, weather);
            && after == db && seen == lastSeen
            && r == if Asks(registered, lastSeen, key, number, connected) then Err(NoManifest) else Ok(())
  {}

  /**
   A round that gets a manifest judges all of it on the store as it is and carries the verdicts out up to the first that
   fails. The cursor of this peer and folder, and no other, moves to the manifest's number exactly if none fails.
   */
  lemma AnsweredRound(name: Naming, db: Db, registered: set<string>, lastSeen: map<PeerKey, nat>, key: PeerKey,
                      number: nat, connected: bool, manifest: Manifest, weather: nat -> Env)
    returns (acts: seq<Action>, envs: seq<Env>, dbs: seq<Db>, done: nat)
    requires Asks(registered, lastSeen, key, number, connected)
    ensures |acts| == |envs| == |manifest.events| && Trace(acts, envs, dbs, done) && dbs[0] == db
    ensures forall i :: 0 <= i < |acts| ==> acts[i] == Reconcile(name, db, manifest.events[i]) && envs[i] == weather(i)
    ensures var (after, seen, r) := Round(name, db, registered, lastSeen, key, number, connected, Some(manifest),
            weather);
            && after == dbs[done]
            && seen == (if done == |acts| then lastSeen[key := manifest.latest] else lastSeen)
            && r == if done == |acts| then Ok(()) else Err(ActionFailed)
  {
    hide PullAll, Trace, Reconcile;
    envs := Mesh.Weather(weather, |manifest.events|);
    WeatherAt(weather, |manifest.events|);
    acts, dbs := PullAllTraced(name, db, manifest.events, envs);
    done := PullAll(name, db, manifest.events, envs).done;
  }

  lemma WeatherAt(weather: nat -> Env, n: nat)
    ensures forall i :: 0 <= i < n ==> Mesh.Weather(weather, n)[i] == weather(i)
  {}

  /** Cursors change only in an answered round whose actions all went through, and an error leaves them as they are. */
  lemma CursorMovesOnlyOnSuccess(name: Naming, db: Db, registered: set<string>, lastSeen: map<PeerKey, nat>,
                                 key: PeerKey,
                                 number: nat, connected: bool, reply: Option<Manifest>, weather: nat -> Env)
    ensures var (after, seen, r) := Round(name, db, registered, lastSeen, key, number, connected, reply, weather);
            && (r.Err? ==> seen == lastSeen)
            && (seen != lastSeen ==> Asks(registered, lastSeen, key, number, connected) && reply.Some? &&
                                     r == Ok(()) && seen == lastSeen[key := reply.value.latest])
  {
    hide PullAll;
  }

  lemma {:induction false} NothingAboveLatest(log: seq<SyncEvent>, folder: string, since: nat)
    requires LatestSeq(log, folder) <= since
    ensures TailOf(log, folder, since) == []
  {
    if log != [] {
      NothingAboveLatest(log[..|log| - 1], folder, since);
    }
  }

  /**
   Whatever number the trigger carries, a round answered by the peer from its own log is the mesh's pull, or with a
   number the cursor has reached no round at all. The cursor moves only on success, and to the log's latest number.
   */
  lemma RoundIsMeshPull(name: Naming, producer: Db, db: Db, registered: set<string>, lastSeen: map<PeerKey, nat>,
                        key: PeerKey, notified: nat, weather: nat -> Env)
    requires key.folder in registered && CursorOf(lastSeen, key) <= LatestSeq(producer.log, key.folder)
    ensures var (events, latest) := EventsSince(producer, key.folder, CursorOf(lastSeen, key), MANIFEST_LIMIT);
            var (after, seen, r) := Round(name, db, registered, lastSeen, key, notified, true,
                                             Some(Manifest(events, latest)), weather);
            var consumer := Mesh.Node(db, CursorOf(lastSeen, key), false);
            var pulled := Mesh.PullFrom(name, key.folder, producer, consumer, weather);
            && (if notified <= CursorOf(lastSeen, key) then after == db && seen == lastSeen && r == Ok(())
                else pulled.db == after && pulled.cursor == CursorOf(seen, key) && (pulled.partial <==> r.Err?))
            && (r.Err? ==> seen == lastSeen)
            && (seen != lastSeen ==> r == Ok(()) && seen == lastSeen[key := latest])
  {
    hide ReconcileAll;
    if LatestSeq(producer.log, key.folder) <= CursorOf(lastSeen, key) {
      NothingAboveLatest(producer.log, key.folder, CursorOf(lastSeen, key));
    }
  }

  /**
   A round that failed at any action, tried again with the same manifest, ends like one clean round, up to timestamps.
   */
  lemma RetriedRound(name: Naming, db: Db, registered: set<string>, lastSeen: map<PeerKey, nat>, key: PeerKey,
                     peerLatest: nat, manifest: Manifest, first: nat -> Env, retry: nat -> Env, clean: nat -> Env)
    requires Separate(name, db, manifest.events)
    requires (forall i :: retry(i).sent) && (forall i :: clean(i).sent)
    requires Round(name, db, registered, lastSeen, key, peerLatest, true, Some(manifest), first).2.Err?
    ensures var (db1, seen1, _) := Round(name, db, registered, lastSeen, key, peerLatest, true, Some(manifest), first);
            var (db2, seen2, r2) := Round(name, db1, registered, seen1, key, peerLatest, true, Some(manifest), retry);
            var (db3, seen3, r3) := Round(name, db, registered, lastSeen, key, peerLatest, true, Some(manifest), clean);
            seen1 == lastSeen && seen2 == seen3 && r2 == r3 && Same(db2, db3)
  {
    hide Same, Separate;
    var n := |manifest.events|;
    RetryIsSafe(name, db, manifest.events, Mesh.Weather(first, n), Mesh.Weather(retry, n), Mesh.Weather(clean, n));
  }

  class SyncCoordinator {
    const db: Store.MetadataDb
    var registered: set<string>
    var lastSeen: map<PeerKey, nat>
    var inFlight: set<PeerKey>

    constructor (store: Store.MetadataDb)
      ensures db == store && registered == {} && lastSeen == map[] && inFlight == {}
    {
      db := store;
      registered, lastSeen, inFlight := {}, map[], {};
    }

    method RegisterFolder(folder: string)
      requires db as object != this
      modifies this`registered, db
      ensures registered == old(registered) + {folder}
      ensures db.View() == AddFolder(old(db.View()), folder)
    {
      db.AddFolder(folder);
      registered := registered + {folder};
    }

    method ReconcileRemoteEvents(name: Naming, events: seq<SyncEvent>) returns (actions: seq<Action>)
      ensures actions == ReconcileAll(name, db.View(), events)
    {
      actions := [];
      for i := 0 to |events|
        invariant actions == ReconcileAll(name, db.View(), events[..i])
      {
        var row := db.GetFile(events[i].folder, events[i].path);
        actions := actions + [Decide(name, row, events[i])];
        assert events[..i + 1] == events[..i] + [events[i]];
      }
      assert events[..|events|] == events;
    }

    method ApplyReconciliationAction(act: Action, now: int) returns (ok: bool)
      modifies db
      ensures match Apply(old(db.View()), act, now)
              case Ok(after) => ok && db.View() == after
              case Err(_) => !ok && db.View() == old(db.View())
    {
      var error: Option<DbError> := None;
      match act {
        case DownloadNeeded(folder, fileId, path, size, hash, version, origin) =>
          error := db.ApplyRemoteUpsert(SyncEvent(0, folder, fileId, path, Upsert, version, size, hash, origin, now));
        case DeleteLocal(folder, fileId, path, version) =>
          error := db.ApplyRemoteDelete(SyncEvent(0, folder, fileId, path, Delete, version, 0, "", REMOTE, now), now);
        case Conflict(folder, fileId, _, conflictPath, size, hash, version, origin) =>
          error := db.ApplyRemoteUpsert(
            SyncEvent(0, folder, fileId + "_conflict", conflictPath, Upsert, version, size, hash, origin, now));
        case _ =>
      }
      ok := error.None?;
    }

    /** The cursor moves to the peer's latest number exactly when the whole batch was applied. */
    method DoReconcile(name: Naming, key: PeerKey, peerLatest: nat, connected: bool, reply: Option<Manifest>,
                       weather: nat -> Env)
      returns (r: Result<(), SyncError>)
      requires db as object != this
      modifies this`lastSeen, db
      ensures (db.View(), lastSeen, r) ==
              Round(name, old(db.View()), registered, old(lastSeen), key, peerLatest, connected, reply, weather)
    {
      hide Apply, Reconcile, NeedsPeer;
      if !connected || key.folder !in registered {
        return Ok(());
      }
      var since := if key in lastSeen then lastSeen[key] else 0;
      if since >= peerLatest {
        return Ok(());
      }
      if reply.None? {
        return Err(NoManifest);
      }
      var evs := reply.value.events;
      var actions := ReconcileRemoteEvents(name, evs);
      var i := 0;
      ghost var envs := Mesh.Weather(weather, |evs|);
      ghost var whole := ApplyAll(db.View(), actions, envs);
      while i < |actions|
        invariant 0 <= i <= |actions| == |envs|
        invariant lastSeen == old(lastSeen)
        invariant whole.db == ApplyAll(db.View(), actions[i..], envs[i..]).db
        invariant whole.done == i + ApplyAll(db.View(), actions[i..], envs[i..]).done
      {
        if NeedsPeer(actions[i]) && !weather(i).sent {
          return Err(ActionFailed);
        }
        assert actions[i..][1..] == actions[i + 1..] && envs[i..][1..] == envs[i + 1..];
        var ok := ApplyReconciliationAction(actions[i], weather(i).now);
        if !ok {
          return Err(ActionFailed);
        }
        i := i + 1;
      }
      lastSeen := lastSeen[key := reply.value.latest];
      return Ok(());
    }

    /** One reconcile at a time for a folder and peer: a second trigger is dropped and changes nothing. */
    method ReconcileWithPeer(name: Naming, key: PeerKey, peerLatest: nat, connected: bool, reply: Option<Manifest>,
                             weather: nat -> Env)
      returns (r: Result<(), SyncError>)
      requires db as object != this
      modifies this`lastSeen, this`inFlight, db
      ensures inFlight == old(inFlight)
      ensures (db.View(), lastSeen, r) ==
              if key in old(inFlight) then (old(db.View()), old(lastSeen), Ok(()))
              else Round(name, old(db.View()), registered, old(lastSeen), key, peerLatest, connected, reply, weather)
    {
      if key in inFlight {
        return Ok(());
      }
      inFlight := inFlight + {key};
      r := DoReconcile(name, key, peerLatest, connected, reply, weather);
      inFlight := inFlight - {key};
    }

    method OnFileSeen(folder: string, path: string, size: nat, hash: string, node: string, now: int)
      modifies db
      ensures db.View() == FileSeen(old(db.View()), folder, path, size, hash, node, now)
    {
      var row := db.GetFile(folder, path);
      if row.Some? && !row.value.isDeleted && row.value.hash == hash && row.value.size == size {
        return;
      }
      var r := db.RecordLocalUpsert(folder, path, size, hash, node, now);
    }

    method OnFileGone(folder: string, path: string, node: string, now: int)
      modifies db
      ensures db.View() == FileGone(old(db.View()), folder, path, node, now)
    {
      var row := db.GetFile(folder, path);
      if row.Some? && row.value.isDeleted {
        return;
      }
      var r := db.RecordLocalDelete(folder, path, node, now);
    }
  }
}
