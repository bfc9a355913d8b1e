/**
 The causal decision table (reconciler.rs) and what the service does with its verdict (service.rs).
 */
module Reconciler {
  import opened Outcomes
  import opened Paths
  import opened Catalogue

  /** How a conflict copy is named: any rule that keeps clear of the disputed path and leaves the marker. */
  type Naming = f: SyncEvent -> string | forall e :: GoodName(f(e), e.path)
    ghost witness (SourceNamingIsGood(_ => ""); SourceNaming(_ => ""))

  ghost predicate GoodName(name: string, path: string) {
    Normalize(name) != Normalize(path) && Contains(Normalize(name), MARKER)
  }

  /** The rule the code uses, for a given date format. */
  function SourceNaming(fmt: int -> string): (name: SyncEvent -> string) {
    (e: SyncEvent) => ConflictPath(fmt, e.path, e.origin, e.modifiedAt)
  }

  lemma SourceNamingIsGood(fmt: int -> string)
    ensures forall e :: GoodName(SourceNaming(fmt)(e), e.path)
  {
    hide ConflictPath, Normalize;
    forall e: SyncEvent ensures GoodName(SourceNaming(fmt)(e), e.path) {
      ConflictPathDiffers(fmt, e.path, e.origin, e.modifiedAt);
      ConflictPathCarriesMarker(fmt, e.path, e.origin, e.modifiedAt);
    }
  }

  function SourceName(fmt: int -> string): (name: Naming) {
    SourceNamingIsGood(fmt);
    SourceNaming(fmt)
  }

  datatype Action =
    | UpToDate(fileId: string, version: nat)
    | DownloadNeeded(folder: string, fileId: string, path: string, size: nat, hash: string, version: nat,
      origin: string)
    | DeleteLocal(folder: string, fileId: string, path: string, version: nat)
    | Conflict(folder: string, fileId: string, path: string, conflictPath: string, size: nat, hash: string,
               version: nat, origin: string)
    | Ignore

  function Max(a: nat, b: nat): (max: nat) {
    if a < b then b else a
  }

  function Download(e: SyncEvent): (act: Action) {
    DownloadNeeded(e.folder, e.fileId, e.path, e.size, e.hash, e.version, e.origin)
  }

  function Branch(name: Naming, e: SyncEvent): (act: Action) {
    Conflict(e.folder, e.fileId, e.path, name(e), e.size, e.hash,
             e.version, e.origin)
  }

  /** What to do about event `e` when the catalogue holds `row` for its path. */
  function Decide(name: Naming, row: Option<FileRecord>, e: SyncEvent): (act: Action) {
    match row
    case None => if e.kind == Upsert then Download(e) else Ignore
    case Some(local) =>
      if !local.isDeleted && e.kind == Upsert && local.hash == e.hash then
        UpToDate(local.fileId, Max(local.version, e.version))
      else if e.kind == Delete then
        if local.isDeleted then Ignore
        else if e.version >= local.version then DeleteLocal(e.folder, local.fileId, e.path, e.version)
        else Ignore
      else if local.isDeleted then
        if e.version > local.version then Download(e) else Ignore
      else if e.version > local.version && e.origin == local.origin then Download(e)
      else if e.version > local.version && local.origin != e.origin && local.modifiedAt < e.modifiedAt then Download(e)
      else Branch(name, e)
  }

  function Reconcile(name: Naming, db: Db, e: SyncEvent): (act: Action) {
    Decide(name, GetFile(db, e.folder, e.path), e)
  }

  // ---------- applying a verdict ----------

  const REMOTE := "remote"

  predicate Writes(act: Action) {
    act.DownloadNeeded? || act.DeleteLocal? || act.Conflict?
  }

  /** The event a writing action is turned into, at the path as stored. */
  function EventOf(act: Action, now: int): (e: SyncEvent)
    requires Writes(act)
  {
    match act
    case DownloadNeeded(folder, fileId, path, size, hash, version, origin) =>
      SyncEvent(0, folder, fileId, Normalize(path), Upsert, version, size, hash, origin, now)
    case DeleteLocal(folder, fileId, path, version) =>
      SyncEvent(0, folder, fileId, Normalize(path), Delete, version, 0, "", REMOTE, now)
    case Conflict(folder, fileId, _, conflictPath, size, hash, version, origin) =>
      SyncEvent(0, folder, fileId + "_conflict", Normalize(conflictPath), Upsert, version, size, hash, origin, now)
  }

  /** Writes one event; `e` carries the path as stored. */
  function Commit(db: Db, e: SyncEvent): (r: Result<Db, DbError>) {
    if e.kind == Upsert then PutRemote(db, e) else BuryRemote(db, e, e.modifiedAt)
  }

  function Apply(db: Db, act: Action, now: int): (r: Result<Db, DbError>) {
    if Writes(act) then Commit(db, EventOf(act, now)) else Ok(db)
  }

  /** Reconcile one event and apply the verdict, with nothing in between. */
  function RemoteStep(name: Naming, db: Db, e: SyncEvent, now: int): (r: Result<Db, DbError>) {
    Apply(db, Reconcile(name, db, e), now)
  }

  /** The row a writing action writes. */
  function TargetOf(act: Action): (k: Key)
    requires Writes(act)
  {
    At(EventOf(act, 0))
  }

  // ---------- facts every proof about applying uses ----------

  /** An action touches the one row it names, and the log only at its end. */
  lemma ApplyFrame(db: Db, act: Action, now: int, k: Key)
    requires Apply(db, act, now).Ok? && (Writes(act) ==> k != TargetOf(act))
    ensures k in Apply(db, act, now).value.files <==> k in db.files
    ensures k in db.files ==> Apply(db, act, now).value.files[k] == db.files[k]
  {}

  lemma CommitGrows(db: Db, e: SyncEvent)
    requires Commit(db, e).Ok?
    ensures db.log <= Commit(db, e).value.log && Commit(db, e).value.folders == db.folders
    ensures At(e) in db.files || e.kind == Upsert ==> Commit(db, e).value.files.Keys == db.files.Keys + {At(e)}
  {}

  /** A conflict copy gets a row of its own, under a name that carries the marker. */
  lemma BranchTarget(name: Naming, e: SyncEvent)
    ensures TargetOf(Branch(name, e)) != KeyOf(e)
    ensures Contains(TargetOf(Branch(name, e)).path, MARKER)
  {
    assert GoodName(name(e), e.path);
  }

  /** A verdict is carried out on the event's own path; only a conflict goes elsewhere. */
  lemma TargetIsOwnPath(name: Naming, row: Option<FileRecord>, e: SyncEvent)
    requires Writes(Decide(name, row, e))
    ensures TargetOf(Decide(name, row, e)) == KeyOf(e) <==> !Decide(name, row, e).Conflict?
  {
    BranchTarget(name, e);
  }

  /** Conflict exactly when two live contents compete and the incoming one is not a later edit of the local one. */
  lemma ConflictIff(name: Naming, db: Db, e: SyncEvent)
    ensures Reconcile(name, db, e).Conflict? <==>
              && e.kind == Upsert && KeyOf(e) in db.files && !db.files[KeyOf(e)].isDeleted
              && db.files[KeyOf(e)].hash != e.hash
              && !(e.version > db.files[KeyOf(e)].version &&
                   (e.origin == db.files[KeyOf(e)].origin || db.files[KeyOf(e)].modifiedAt < e.modifiedAt))
  {}

  /**
   When the verdict on an event may be applied without a step back: always, unless its conflict copy would land on a
   later row.
   */
  predicate Admissible(name: Naming, db: Db, e: SyncEvent, now: int) {
    var act := Reconcile(name, db, e);
    act.Conflict? ==> Admits(db, TargetOf(act), LiveRow(EventOf(act, now)))
  }

  lemma EventOfIsNormal(act: Action, now: int)
    requires Writes(act)
    ensures IsNormal(EventOf(act, now).path)
  {
    NormalizeIsProjection(
      match act
      case DownloadNeeded(_, _, path, _, _, _, _) => path
      case DeleteLocal(_, _, path, _) => path
      case Conflict(_, _, _, conflictPath, _, _, _, _) => conflictPath
      case _ => "");
  }

  lemma DeleteLocalKeepsInv(name: Naming, db: Db, e: SyncEvent, now: int)
    requires Inv(db) && Reconcile(name, db, e).DeleteLocal?
    ensures RemoteStep(name, db, e, now).Ok? && Inv(RemoteStep(name, db, e, now).value)
  {
    var act := Reconcile(name, db, e);
    EventOfIsNormal(act, now);
    hide Inv, BuryRemote;
    BuryRemoteKeepsInv(db, EventOf(act, now), now);
  }

  /** Exactly when one atomic reconcile-then-apply keeps the catalogue the fold of a strictly progressing log. */
  lemma RemoteStepKeepsInvIff(name: Naming, db: Db, e: SyncEvent, now: int)
    requires Inv(db) && RemoteStep(name, db, e, now).Ok?
    ensures Inv(RemoteStep(name, db, e, now).value) <==> Admissible(name, db, e, now)
  {
    hide Inv, BuryRemote, PutRemote;
    var act := Reconcile(name, db, e);
    if act.DeleteLocal? {
      DeleteLocalKeepsInv(name, db, e, now);
    } else if Writes(act) {
      EventOfIsNormal(act, now);
      PutRemoteKeepsInvIff(db, EventOf(act, now));
    }
  }
}
