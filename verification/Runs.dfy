/**
 Runs of one node: folders registered, local edits, and atomic reconcile-then-apply steps
 for events of any origin. A step that fails leaves the store as it was.
 */
module Runs {
  import opened Outcomes
  import opened Paths
  import opened Catalogue
  import opened StoreLaws
  import opened Reconciler

  datatype Step =
    | Register(folder: string)
    | LocalPut(folder: string, path: string, size: nat, hash: string, node: string, now: int)
    | LocalRemove(folder: string, path: string, node: string, now: int)
    | Remote(e: SyncEvent, now: int)

  function Next(name: Naming, db: Db, s: Step): (db': Db) {
    match s
    case Register(folder) => AddFolder(db, folder)
    case LocalPut(folder, path, size, hash, node, now) =>
      (match LocalUpsert(db, folder, path, size, hash, node, now)
       case Ok(r) => r.0
       case Err(_) => db)
    case LocalRemove(folder, path, node, now) => LocalDelete(db, folder, path, node, now).0
    case Remote(e, now) =>
      match RemoteStep(name, db, e, now)
      case Ok(db') => db'
      case Err(_) => db
  }

  function Run(name: Naming, db: Db, steps: seq<Step>): (db': Db) {
    if steps == [] then db else Next(name, Run(name, db, steps[..|steps| - 1]), steps[|steps| - 1])
  }

  /** What a step does to the store: a failed one leaves it as it was. */
  lemma StepDoes(name: Naming, db: Db, s: Step) returns (edit: Result<SyncEvent, DbError>, gone: Option<SyncEvent>)
    ensures var after := Next(name, db, s);
            match s
            case Register(folder) => after == db.(folders := db.folders + {folder})
            case LocalPut(folder, path, size, hash, node, now) =>
              var k := Key(folder, Normalize(path));
              Edits(db, after, edit, k, size, hash, node, now) && (edit.Err? <==> EditRefused(db, k, hash))
            case LocalRemove(folder, path, node, now) => Deletes(db, after, gone, Key(folder, Normalize(path)), node,
              now)
            case Remote(e, now) => RemoteStep(name, db, e, now).Ok? ==> RemoteStep(name, db, e, now) == Ok(after)
  {
    hide Normalize, Edits, Deletes, EditRefused, LocalUpsert, LocalDelete;
    edit, gone := Err(NoSuchFolder), None;
    match s
    case LocalPut(folder, path, size, hash, node, now) =>
      LocalUpsertEdits(db, folder, path, size, hash, node, now);
      var out := LocalUpsert(db, folder, path, size, hash, node, now);
      edit := if out.Ok? then Ok(out.value.1) else Err(out.error);
    case LocalRemove(folder, path, node, now) =>
      LocalDeleteDeletes(db, folder, path, node, now);
      gone := LocalDelete(db, folder, path, node, now).1;
    case _ =>
  }

  predicate Sound(name: Naming, db: Db, s: Step) {
    s.Remote? && RemoteStep(name, db, s.e, s.now).Ok? ==> Admissible(name, db, s.e, s.now)
  }

  /** Every conflict copy of the run finds its place free, or holding a lower version, or itself. */
  ghost predicate SoundRun(name: Naming, db: Db, steps: seq<Step>) {
    steps == [] ||
    (SoundRun(name, db, steps[..|steps| - 1]) && Sound(name, Run(name, db, steps[..|steps| - 1]), steps[|steps| - 1]))
  }

  /** Exactly when a step keeps the invariant. */
  lemma NextKeepsInvIff(name: Naming, db: Db, s: Step)
    requires Inv(db)
    ensures Inv(Next(name, db, s)) <==> Sound(name, db, s)
  {
    hide Admissible, RemoteStep, LocalUpsert, LocalDelete;
    match s
    case Register(_) =>
    case LocalPut(folder, path, size, hash, node, now) =>
      if LocalUpsert(db, folder, path, size, hash, node, now).Ok? {
        LocalUpsertKeepsInv(db, folder, path, size, hash, node, now);
      }
    case LocalRemove(folder, path, node, now) =>
      LocalDeleteKeepsInv(db, folder, path, node, now);
    case Remote(e, now) =>
      if RemoteStep(name, db, e, now).Ok? {
        RemoteStepKeepsInvIff(name, db, e, now);
      }
  }

  /** In every reachable state the catalogue is the last-event-per-path fold of a progressing log. */
  lemma {:induction false} ReachableInv(name: Naming, steps: seq<Step>)
    requires SoundRun(name, EMPTY, steps)
    ensures Inv(Run(name, EMPTY, steps))
  {
    if steps != [] {
      var before := Run(name, EMPTY, steps[..|steps| - 1]);
      ReachableInv(name, steps[..|steps| - 1]);
      NextKeepsInvIff(name, before, steps[|steps| - 1]);
    }
  }

  lemma NextLogGrows(name: Naming, db: Db, s: Step)
    ensures db.log <= Next(name, db, s).log
  {
    hide Reconcile, EventOf;
  }

  lemma {:induction false} RunLogGrows(name: Naming, db: Db, steps: seq<Step>, n: nat)
    requires n <= |steps|
    ensures Run(name, db, steps[..n]).log <= Run(name, db, steps).log
    ensures SoundRun(name, db, steps) ==> SoundRun(name, db, steps[..n])
  {
    if n == |steps| {
      assert steps[..n] == steps;
    } else {
      var m := |steps| - 1;
      RunLogGrows(name, db, steps[..m], n);
      assert steps[..m][..n] == steps[..n];
      NextLogGrows(name, Run(name, db, steps[..m]), steps[m]);
    }
  }

  lemma LaterRowsRankHigher(db: Db, db': Db, k: Key)
    requires Inv(db) && Inv(db') && db.log <= db'.log && k in db.files
    ensures k in db'.files && RowRank(db.files[k]) <= RowRank(db'.files[k])
  {
    var i := ReplayFrom(db.log, k);
    assert db'.log[i] == db.log[i];
    ReplayIsTop(db'.log, i);
    assert Matches(db.files[k], Replay(db.log)[k]);
    assert Matches(db'.files[k], Replay(db'.log)[k]);
  }

  /** No row disappears and no version ever goes down, from any point of a run to any later one. */
  lemma VersionsNeverDrop(name: Naming, steps: seq<Step>, n: nat, k: Key)
    requires SoundRun(name, EMPTY, steps) && n <= |steps| && k in Run(name, EMPTY, steps[..n]).files
    ensures k in Run(name, EMPTY, steps).files
    ensures RowRank(Run(name, EMPTY, steps[..n]).files[k]) <= RowRank(Run(name, EMPTY, steps).files[k])
  {
    RunLogGrows(name, EMPTY, steps, n);
    ReachableInv(name, steps[..n]);
    ReachableInv(name, steps);
    LaterRowsRankHigher(Run(name, EMPTY, steps[..n]), Run(name, EMPTY, steps), k);
  }

  // ---------- a conflict copy on an occupied name ----------

  function Put(fileId: string, path: string, version: nat, hash: string): (e: SyncEvent) {
    SyncEvent(1, "f", fileId, path, Upsert, version, 0, hash, "n", 0)
  }

  /** A folder, a file, and another file under the name that a conflict over the first one will want. */
  function TwoFiles(path: string): (steps: seq<Step>) {
    [Register("f"), Remote(Put("x", "a", 1, "h1"), 0), Remote(Put("y", path, 5, "h3"), 0)]
  }

  lemma NewFileIsTaken(name: Naming, db: Db, e: SyncEvent)
    requires e.kind == Upsert && IsNormal(e.path) && At(e) !in db.files && e.folder in db.folders
    requires e.modifiedAt == 0 && forall k :: k in db.files ==> db.files[k].fileId != e.fileId
    ensures var db' := Next(name, db, Remote(e, 0));
            && db'.files == db.files[At(e) := LiveRow(e)] && db'.folders == db.folders && Sound(name, db, Remote(e, 0))
  {
    NormalizeIsProjection(e.path);
    hide Normalize;
    assert !IdTaken(db, At(e), e.fileId);
  }

  lemma TwoFilesRun(name: Naming, path: string)
    requires IsNormal(path) && path != "a"
    ensures var db := Run(name, EMPTY, TwoFiles(path));
            && db.folders == {"f"} && SoundRun(name, EMPTY, TwoFiles(path))
            && db.files == map[Key("f", "a") := LiveRow(Put("x", "a", 1, "h1"))]
                              [Key("f", path) := LiveRow(Put("y", path, 5, "h3"))]
  {
    hide Next, Sound, LiveRow, Run, SoundRun;
    var steps := TwoFiles(path);
    RunNothing(name);
    RunMore(name, [], steps[0]);
    RunMore(name, [] + [steps[0]], steps[1]);
    RunMore(name, [] + [steps[0]] + [steps[1]], steps[2]);
    assert steps == [] + [steps[0]] + [steps[1]] + [steps[2]];
    RegisterFolder(name);
    var db1 := Next(name, EMPTY, steps[0]);
    NewFileIsTaken(name, db1, Put("x", "a", 1, "h1"));
    var db2 := Next(name, db1, steps[1]);
    OtherIdIsFree(db2);
    NewFileIsTaken(name, db2, Put("y", path, 5, "h3"));
  }

  lemma RunNothing(name: Naming)
    ensures Run(name, EMPTY, []) == EMPTY && SoundRun(name, EMPTY, [])
  {}

  lemma RunMore(name: Naming, steps: seq<Step>, step: Step)
    ensures Run(name, EMPTY, steps + [step]) == Next(name, Run(name, EMPTY, steps), step)
    ensures SoundRun(name, EMPTY, steps + [step]) <==>
              SoundRun(name, EMPTY, steps) && Sound(name, Run(name, EMPTY, steps), step)
  {
    assert (steps + [step])[..|steps|] == steps;
  }

  lemma RegisterFolder(name: Naming)
    ensures Next(name, EMPTY, Register("f")) == Db({"f"}, map[], [], 1) && Sound(name, EMPTY, Register("f"))
  {}

  lemma OtherIdIsFree(db: Db)
    requires db.files == map[][Key("f", "a") := LiveRow(Put("x", "a", 1, "h1"))]
    ensures forall k :: k in db.files ==> db.files[k].fileId != "y"
  {}

  const CLASHING := SyncEvent(1, "f", "z", "a", Upsert, 1, 0, "h2", "m", 0)

  /** The admissibility condition is needed: after a run, an occupied conflict name takes the store a version back. */
  lemma OccupiedConflictNameStepsBack(name: Naming) returns (steps: seq<Step>, k: Key)
    ensures SoundRun(name, EMPTY, steps)
    ensures var db := Run(name, EMPTY, steps);
            && RemoteStep(name, db, CLASHING, 0).Ok? && k in db.files &&
               k in RemoteStep(name, db, CLASHING, 0).value.files
            && RemoteStep(name, db, CLASHING, 0).value.files[k].version < db.files[k].version
            && !Inv(RemoteStep(name, db, CLASHING, 0).value)
  {
    hide Inv, Normalize, Contains, Run, SoundRun;
    var act := Branch(name, CLASHING);
    NormalizeIsProjection("a");
    BranchTarget(name, CLASHING);
    EventOfIsNormal(act, 0);
    k := TargetOf(act);
    steps := TwoFiles(k.path);
    TwoFilesRun(name, k.path);
    ReachableInv(name, steps);
    ClashStepsBack(name, Run(name, EMPTY, steps), k);
  }

  lemma ClashStepsBack(name: Naming, db: Db, k: Key)
    requires Inv(db) && db.folders == {"f"} && k == TargetOf(Branch(name, CLASHING))
    requires db.files == map[Key("f", "a") := LiveRow(Put("x", "a", 1, "h1"))][k := LiveRow(Put("y", k.path, 5, "h3"))]
    ensures var after := RemoteStep(name, db, CLASHING, 0);
            after.Ok? && k in after.value.files && after.value.files[k].version < db.files[k].version &&
              !Inv(after.value)
  {
    hide Inv, Normalize, Contains;
    NormalizeIsProjection("a");
    BranchTarget(name, CLASHING);
    assert Reconcile(name, db, CLASHING) == Branch(name, CLASHING);
    assert "z" + "_conflict" == "z_conflict";
    assert !IdTaken(db, k, "z_conflict");
    RemoteStepKeepsInvIff(name, db, CLASHING, 0);
  }

  // ---------- tombstones ----------

  /** What a step may do about the tombstone of `k` at version `t`. */
  predicate Harmless(s: Step, k: Key, t: nat) {
    match s
    case LocalPut(folder, path, _, _, _, _) => Key(folder, Normalize(path)) != k
    case Remote(e, _) => e.kind == Upsert && KeyOf(e) == k ==> e.version <= t
    case _ => true
  }

  lemma HarmlessStepKeepsTombstone(name: Naming, db: Db, s: Step, k: Key)
    requires k in db.files && db.files[k].isDeleted && !Contains(k.path, MARKER)
    requires Harmless(s, k, db.files[k].version)
    ensures k in Next(name, db, s).files && Next(name, db, s).files[k] == db.files[k]
  {
    hide Contains;
    if s.Remote? && RemoteStep(name, db, s.e, s.now).Ok? {
      var act := Reconcile(name, db, s.e);
      BranchTarget(name, s.e);
      ApplyFrame(db, if KeyOf(s.e) == k && !Writes(act) then Ignore else act, s.now, k);
    }
  }

  /** A deleted file is not brought back by older replicas, whatever else happens around it. */
  lemma {:induction false} NoResurrection(name: Naming, db: Db, steps: seq<Step>, k: Key)
    requires k in db.files && db.files[k].isDeleted && !Contains(k.path, MARKER)
    requires forall i :: 0 <= i < |steps| ==> Harmless(steps[i], k, db.files[k].version)
    ensures k in Run(name, db, steps).files && Run(name, db, steps).files[k] == db.files[k]
  {
    if steps != [] {
      NoResurrection(name, db, steps[..|steps| - 1], k);
      HarmlessStepKeepsTombstone(name, Run(name, db, steps[..|steps| - 1]), steps[|steps| - 1], k);
    }
  }
}
