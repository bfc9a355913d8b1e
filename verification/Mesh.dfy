/**
 A chain of nodes sharing one folder: all edits are made on the first node, and every other
 node pulls its predecessor's log (coordinator.rs, service.rs, db.rs).
 */
module Mesh {
  import opened Outcomes
  import opened Paths
  import opened Catalogue
  import opened StoreLaws
  import opened Reconciler
  import opened Batch
  import opened Lineage
  import opened Snapshot
  import opened Repull

  /**
   A node's store, and how far it has seen its predecessor's log. `partial` is history: the last pull was
   cut short or the node restarted, which forgets the cursor, so the store may be ahead of its cursor.
   */
  datatype Node = Node(db: Db, cursor: nat, partial: bool)

  datatype Step =
    | Edit(path: string, size: nat, hash: string, now: int)
    | Erase(path: string, now: int)
    | Pull(i: nat, weather: nat -> Env)
    | Restart(i: nat)

  function Start(folder: string): (start: Node) {
    Node(AddFolder(EMPTY, folder), 0, false)
  }

  function Weather(weather: nat -> Env, n: nat): (envs: seq<Env>)
    ensures |envs| == n
  {
    seq(n, i requires 0 <= i < n => weather(i))
  }

  /** One pull: the delta since the cursor, judged and applied; the cursor moves only after a complete batch. */
  function PullFrom(name: Naming, folder: string, producer: Db, consumer: Node, weather: nat -> Env): (node: Node) {
    var (evs, latest) := EventsSince(producer, folder, consumer.cursor, MANIFEST_LIMIT);
    if consumer.cursor >= latest then consumer
    else
      var r := PullAll(name, consumer.db, evs, Weather(weather, |evs|));
      if r.done == |evs| then Node(r.db, latest, false) else Node(r.db, consumer.cursor, true)
  }

  /** The cursor is kept in memory only. */
  function Restarted(n: Node): (n': Node) {
    Node(n.db, 0, true)
  }

  function Next(name: Naming, folder: string, author: string, mesh: seq<Node>, s: Step): (mesh': seq<Node>)
    ensures |mesh'| == |mesh|
  {
    if mesh == [] then mesh
    else
      match s
      case Edit(path, size, hash, now) =>
        (match LocalUpsert(mesh[0].db, folder, path, size, hash, author, now)
         case Ok(r) => mesh[0 := mesh[0].(db := r.0)]
         case Err(_) => mesh)
      case Erase(path, now) =>
        mesh[0 := mesh[0].(db := LocalDelete(mesh[0].db, folder, path, author, now).0)]
      case Pull(i, weather) =>
        if 1 <= i < |mesh| then mesh[i := PullFrom(name, folder, mesh[i - 1].db, mesh[i], weather)] else mesh
      case Restart(i) => if i < |mesh| then mesh[i := Restarted(mesh[i])] else mesh
  }

  /**
   The delta is free of repeated paths; or the pull is undisturbed, each path's last event wins, and none is an
   upsert of another content than the live row's that is not newer than it (which only a restart can bring).
   */
  ghost predicate Benign(tail: seq<SyncEvent>, consumer: Node, weather: nat -> Env) {
    DistinctPaths(tail) ||
    ((forall i :: weather(i).sent) && NoneOutdated(tail, consumer.db) && LastWins(tail, consumer.db))
  }

  /** A pull the theorem speaks about: at most a manifest's worth of events, and a benign delta. */
  ghost predicate Regular(folder: string, mesh: seq<Node>, s: Step) {
    s.Pull? && 1 <= s.i < |mesh| ==>
      var tail := TailOf(mesh[s.i - 1].db.log, folder, mesh[s.i].cursor);
      |tail| <= MANIFEST_LIMIT && Benign(tail, mesh[s.i], s.weather)
  }

  function Run(name: Naming, folder: string, author: string, mesh: seq<Node>, steps: seq<Step>): (mesh': seq<Node>)
    ensures |mesh'| == |mesh|
  {
    if steps == [] then mesh
    else
      Next(name, folder, author, Run(name, folder, author, mesh, steps[..|steps| - 1]), steps[|steps| - 1])
  }

  ghost predicate RegularRun(name: Naming, folder: string, author: string, mesh: seq<Node>, steps: seq<Step>) {
    steps == [] ||
    (RegularRun(name, folder, author, mesh, steps[..|steps| - 1]) &&
     Regular(folder, Run(name, folder, author, mesh, steps[..|steps| - 1]), steps[|steps| - 1]))
  }

  // ---------- the invariant ----------

  ghost predicate NodeOk(folder: string, author: string, db: Db) {
    Inv(db) && folder in db.folders && SingleAuthor(db.log, folder, author)
  }

  /** The consumer shows some prefix of the producer's log: up to its cursor, or after a cut pull perhaps more. */
  ghost predicate Linked(author: string, producer: Db, consumer: Node) {
    exists m :: consumer.cursor <= m <= |producer.log| && (!consumer.partial ==> m == consumer.cursor) &&
                Follows(author, producer.log[..m], consumer.db)
  }

  ghost predicate MeshInv(folder: string, author: string, mesh: seq<Node>) {
    (forall i :: 0 <= i < |mesh| ==> NodeOk(folder, author, mesh[i].db)) &&
    (forall i :: 1 <= i < |mesh| ==> Linked(author, mesh[i - 1].db, mesh[i]))
  }

  // ---------- the delta ----------

  lemma {:induction false} TailIsSuffix(log: seq<SyncEvent>, folder: string, since: nat)
    requires forall i :: 0 <= i < |log| ==> log[i].seqNo == i + 1 && log[i].folder == folder
    ensures TailOf(log, folder, since) == if since <= |log| then log[since..] else []
    ensures LatestSeq(log, folder) == |log|
  {
    if log != [] {
      var n := |log| - 1;
      var before := log[..n];
      TailIsSuffix(before, folder, since);
      assert log[n].seqNo == n + 1 && log[n].folder == folder;
      if since <= n {
        assert log[since..] == before[since..] + [log[n]];
      } else {
        assert TailOf(before, folder, since) == [];
      }
    }
  }

  // ---------- steps keep the invariant ----------

  lemma LogOnlyGrows(author: string, before: Db, after: Db, consumer: Node)
    requires Linked(author, before, consumer) && before.log <= after.log
    ensures Linked(author, after, consumer)
  {
    var m :| consumer.cursor <= m <= |before.log| && (!consumer.partial ==> m == consumer.cursor) &&
             Follows(author, before.log[..m], consumer.db);
    assert before.log[..m] == after.log[..m];
  }

  lemma IdsAreRowIds(db: Db, folder: string, author: string, i: nat)
    requires NodeOk(folder, author, db) && i < |db.log|
    ensures At(db.log[i]) in db.files && db.files[At(db.log[i])].fileId == db.log[i].fileId
  {
    ReplayIsTop(db.log, i);
    var j := ReplayFrom(db.log, At(db.log[i]));
    assert Matches(db.files[At(db.log[i])], Replay(db.log)[At(db.log[i])]);
  }

  lemma AuthorAppends(db: Db, db': Db, folder: string, author: string, e: SyncEvent)
    requires NodeOk(folder, author, db) && Inv(db') && db'.log == db.log + [e] && db'.folders == db.folders
    requires e.folder == folder && IsNormal(e.path) && e.origin == author
    requires if At(e) in db.files then e.fileId == db.files[At(e)].fileId
             else forall k :: k in db.files ==> db.files[k].fileId != e.fileId
    ensures NodeOk(folder, author, db')
  {
    forall i | 0 <= i < |db.log| ensures db.log[i].fileId == e.fileId <==> At(db.log[i]) == At(e) {
      IdsAreRowIds(db, folder, author, i);
      assert UniqueIds(db.files);
    }
  }

  lemma EditKeepsNode(db: Db, folder: string, author: string, path: string, size: nat, hash: string, now: int)
    requires NodeOk(folder, author, db) && LocalUpsert(db, folder, path, size, hash, author, now).Ok?
    ensures NodeOk(folder, author, LocalUpsert(db, folder, path, size, hash, author, now).value.0)
    ensures db.log <= LocalUpsert(db, folder, path, size, hash, author, now).value.0.log
  {
    NormalizeIsProjection(path);
    LocalUpsertKeepsInv(db, folder, path, size, hash, author, now);
    var (db', e) := LocalUpsert(db, folder, path, size, hash, author, now).value;
    hide Inv;
    AuthorAppends(db, db', folder, author, e);
  }

  lemma EraseKeepsNode(db: Db, folder: string, author: string, path: string, now: int)
    requires NodeOk(folder, author, db)
    ensures NodeOk(folder, author, LocalDelete(db, folder, path, author, now).0)
    ensures db.log <= LocalDelete(db, folder, path, author, now).0.log
  {
    NormalizeIsProjection(path);
    LocalDeleteKeepsInv(db, folder, path, author, now);
    var (db', e) := LocalDelete(db, folder, path, author, now);
    hide Inv;
    if e.Some? {
      AuthorAppends(db, db', folder, author, e.value);
    }
  }

  lemma {:induction false} PullLogGrows(db: Db, acts: seq<Action>, envs: seq<Env>)
    requires |acts| == |envs|
    ensures db.log <= ApplyAll(db, acts, envs).db.log
    decreases |acts|
  {
    if acts != [] && Carry(db, acts[0], envs[0]).Some? {
      if Writes(acts[0]) {
        CommitGrows(db, EventOf(acts[0], envs[0].now));
      }
      PullLogGrows(Carry(db, acts[0], envs[0]).value, acts[1..], envs[1..]);
    }
  }

  /** What the delta of a regular pull is: exactly the rest of the producer's log. */
  lemma DeltaIsTheRest(folder: string, author: string, producer: Db, since: nat)
    requires NodeOk(folder, author, producer) && since <= |producer.log|
    ensures TailOf(producer.log, folder, since) == producer.log[since..]
    ensures LatestSeq(producer.log, folder) == |producer.log|
  {
    TailIsSuffix(producer.log, folder, since);
  }

  lemma PullAgreesWithLog(name: Naming, folder: string, author: string, producer: Db, consumer: Node,
                          weather: nat -> Env, m: nat)
    requires NodeOk(folder, author, producer) && NodeOk(folder, author, consumer.db)
    requires consumer.cursor <= m <= |producer.log| && (!consumer.partial ==> m == consumer.cursor)
    requires Follows(author, producer.log[..m], consumer.db)
    requires Benign(producer.log[consumer.cursor..], consumer, weather)
    ensures var evs := producer.log[consumer.cursor..];
            var r := PullAll(name, consumer.db, evs, Weather(weather, |evs|));
            && Inv(r.db) && folder in r.db.folders
            && Follows(author, producer.log[..Max(m, consumer.cursor + r.done)], r.db)
            && ((forall i :: weather(i).sent) ==> r.done == |evs|)
            && forall act :: act in ReconcileAll(name, consumer.db, evs) ==> !act.Conflict?
  {
    hide Follows, SingleAuthor, Inv, LastWins, DistinctPaths, NoneOutdated;
    var log, c := producer.log, consumer.cursor;
    var envs := Weather(weather, |log| - c);
    if DistinctPaths(log[c..]) {
      PullFollows(name, author, folder, log, c, m, consumer.db, envs);
    } else {
      RepullFollows(name, author, folder, log, c, m, consumer.db, envs);
      assert log[..|log|] == log;
    }
  }

  lemma PullKeepsLink(name: Naming, folder: string, author: string, producer: Db, consumer: Node, weather: nat -> Env)
    requires NodeOk(folder, author, producer) && NodeOk(folder, author, consumer.db) &&
             Linked(author, producer, consumer)
    requires |TailOf(producer.log, folder, consumer.cursor)| <= MANIFEST_LIMIT
    requires Benign(TailOf(producer.log, folder, consumer.cursor), consumer, weather)
    ensures var after := PullFrom(name, folder, producer, consumer, weather);
            && NodeOk(folder, author, after.db) && Linked(author, producer, after)
            && consumer.db.log <= after.db.log && consumer.cursor <= after.cursor
            && ((forall i :: weather(i).sent) ==> after.cursor == |producer.log|)
    ensures forall act :: act in ReconcileAll(name, consumer.db, TailOf(producer.log, folder, consumer.cursor)) ==>
            !act.Conflict?
  {
    hide Follows, SingleAuthor, Inv, Benign, ApplyAll, ReconcileAll, TailOf, LatestSeq;
    var c := consumer.cursor;
    var m :| c <= m <= |producer.log| && (!consumer.partial ==> m == c) &&
      Follows(author, producer.log[..m], consumer.db);
    DeltaIsTheRest(folder, author, producer, c);
    var evs := producer.log[c..];
    var envs := Weather(weather, |evs|);
    PullAgreesWithLog(name, folder, author, producer, consumer, weather, m);
    PullLogGrows(consumer.db, ReconcileAll(name, consumer.db, evs), envs);
    if c < |producer.log| {
      var r := PullAll(name, consumer.db, evs, envs);
      InvProgresses(r.db);
      FollowerIsSingleAuthor(author, folder, producer.log, Max(m, c + r.done), r.db);
    }
  }

  lemma InvProgresses(db: Db)
    requires Inv(db)
    ensures Progressive(db.log)
  {}

  /** Every step of the mesh keeps every node a follower of its predecessor. */
  lemma NextKeepsMesh(name: Naming, folder: string, author: string, mesh: seq<Node>, s: Step)
    requires MeshInv(folder, author, mesh) && Regular(folder, mesh, s)
    ensures MeshInv(folder, author, Next(name, folder, author, mesh, s))
  {
    hide NodeOk, Linked, LocalUpsert, LocalDelete, PullFrom;
    var mesh' := Next(name, folder, author, mesh, s);
    if mesh != [] {
      match s
      case Edit(path, size, hash, now) =>
        if LocalUpsert(mesh[0].db, folder, path, size, hash, author, now).Ok? {
          EditKeepsNode(mesh[0].db, folder, author, path, size, hash, now);
          HeadGrows(folder, author, mesh, mesh'[0].db);
        }
      case Erase(path, now) =>
        EraseKeepsNode(mesh[0].db, folder, author, path, now);
        HeadGrows(folder, author, mesh, mesh'[0].db);
      case Pull(i, weather) =>
        if 1 <= i < |mesh| {
          PullKeepsLink(name, folder, author, mesh[i - 1].db, mesh[i], weather);
          if i + 1 < |mesh| {
            LogOnlyGrows(author, mesh[i].db, mesh'[i].db, mesh[i + 1]);
          }
        }
      case Restart(i) =>
        if 1 <= i < |mesh| {
          RestartKeepsLink(author, mesh[i - 1].db, mesh[i]);
        }
    }
  }

  lemma RestartKeepsLink(author: string, producer: Db, consumer: Node)
    requires Linked(author, producer, consumer)
    ensures Linked(author, producer, Restarted(consumer))
  {
    hide Follows;
    var m :| consumer.cursor <= m <= |producer.log| && (!consumer.partial ==> m == consumer.cursor) &&
             Follows(author, producer.log[..m], consumer.db);
    assert Restarted(consumer).cursor <= m;
  }

  lemma HeadGrows(folder: string, author: string, mesh: seq<Node>, db: Db)
    requires mesh != [] && MeshInv(folder, author, mesh) && NodeOk(folder, author, db) && mesh[0].db.log <= db.log
    ensures MeshInv(folder, author, mesh[0 := mesh[0].(db := db)])
  {
    hide NodeOk, Linked;
    if |mesh| > 1 {
      LogOnlyGrows(author, mesh[0].db, db, mesh[1]);
    }
  }

  ghost predicate AllNew(folder: string, mesh: seq<Node>) {
    forall i :: 0 <= i < |mesh| ==> mesh[i] == Start(folder)
  }

  lemma FreshMeshInv(folder: string, author: string, mesh: seq<Node>)
    requires AllNew(folder, mesh)
    ensures MeshInv(folder, author, mesh)
  {
    var start := Start(folder);
    assert NodeOk(folder, author, start.db);
    assert Follows(author, start.db.log[..0], start.db);
    assert Linked(author, start.db, start) by { assert start.cursor <= 0 <= |start.db.log|; }
  }

  lemma {:induction false} ReachableMesh(name: Naming, folder: string, author: string, mesh: seq<Node>,
                                         steps: seq<Step>)
    requires AllNew(folder, mesh) && RegularRun(name, folder, author, mesh, steps)
    ensures MeshInv(folder, author, Run(name, folder, author, mesh, steps))
  {
    hide MeshInv, Regular, Next;
    if steps == [] {
      FreshMeshInv(folder, author, mesh);
    } else {
      ReachableMesh(name, folder, author, mesh, steps[..|steps| - 1]);
      NextKeepsMesh(name, folder, author, Run(name, folder, author, mesh, steps[..|steps| - 1]), steps[|steps| - 1]);
    }
  }

  // ---------- convergence ----------

  /** The live paths and their contents. */
  ghost function Live(db: Db): (live: map<Key, string>) {
    map k | k in db.files && !db.files[k].isDeleted :: db.files[k].hash
  }

  ghost predicate CaughtUp(mesh: seq<Node>) {
    forall i :: 1 <= i < |mesh| ==> mesh[i].cursor == |mesh[i - 1].db.log|
  }

  lemma CaughtUpNodeAgrees(folder: string, author: string, producer: Db, consumer: Node)
    requires NodeOk(folder, author, producer) && Linked(author, producer, consumer) && consumer.cursor == |producer.log|
    ensures Live(consumer.db) == Live(producer)
  {
    var log := producer.log;
    assert log[..|log|] == log;
    assert Follows(author, log, consumer.db);
    forall k
      ensures k in Live(consumer.db) <==> k in Live(producer)
      ensures k in Live(producer) ==> Live(consumer.db)[k] == Live(producer)[k]
    {
      assert Reflects(author, Last(log, k), RowAt(consumer.db, k));
      assert k in producer.files ==> Matches(producer.files[k], Replay(log)[k]);
    }
  }

  /**
   In every reachable state of the mesh, nodes that are caught up along the chain hold exactly the author's live
   files.
   */
  lemma {:induction false} ChainConverges(folder: string, author: string, mesh: seq<Node>, i: nat)
    requires MeshInv(folder, author, mesh) && CaughtUp(mesh) && i < |mesh|
    ensures Live(mesh[i].db) == Live(mesh[0].db)
  {
    hide NodeOk, Linked, Live;
    if i > 0 {
      ChainConverges(folder, author, mesh, i - 1);
      CaughtUpNodeAgrees(folder, author, mesh[i - 1].db, mesh[i]);
    }
  }

  /** Multi-hop convergence, with failed and repeated pulls in any interleaving. */
  lemma MeshConverges(name: Naming, folder: string, author: string, mesh: seq<Node>, steps: seq<Step>, i: nat)
    requires AllNew(folder, mesh) && RegularRun(name, folder, author, mesh, steps)
    requires CaughtUp(Run(name, folder, author, mesh, steps)) && i < |mesh|
    ensures Live(Run(name, folder, author, mesh, steps)[i].db) == Live(Run(name, folder, author, mesh, steps)[0].db)
  {
    hide MeshInv, AllNew, CaughtUp;
    ReachableMesh(name, folder, author, mesh, steps);
    ChainConverges(folder, author, Run(name, folder, author, mesh, steps), i);
  }

  /** No pull of any such run ever meets a conflict, and a pull the network lets through catches up. */
  lemma PullsNeverConflict(name: Naming, folder: string, author: string, mesh: seq<Node>, steps: seq<Step>,
                           i: nat, weather: nat -> Env)
    requires AllNew(folder, mesh) && RegularRun(name, folder, author, mesh, steps) && 1 <= i < |mesh|
    requires Regular(folder, Run(name, folder, author, mesh, steps), Pull(i, weather))
    ensures var now := Run(name, folder, author, mesh, steps);
            && (forall act :: act in ReconcileAll(name, now[i].db, TailOf(now[i - 1].db.log, folder, now[i].cursor))
                  ==> !act.Conflict?)
            && ((forall j :: weather(j).sent) ==>
                  PullFrom(name, folder, now[i - 1].db, now[i], weather).cursor == |now[i - 1].db.log|)
  {
    hide NodeOk, Linked, AllNew, Benign, PullFrom, ReconcileAll, TailOf;
    ReachableMesh(name, folder, author, mesh, steps);
    var now := Run(name, folder, author, mesh, steps);
    PullKeepsLink(name, folder, author, now[i - 1].db, now[i], weather);
  }
  /**
   Exactly which events of a pull meet a conflict, in every such run and whatever the delta: upserts of another content
   than the live row's that are not newer. Without a restart or a cut pull there are none.
   */
  lemma PullConflictIff(name: Naming, folder: string, author: string, mesh: seq<Node>, steps: seq<Step>, i: nat)
    requires AllNew(folder, mesh) && RegularRun(name, folder, author, mesh, steps) && 1 <= i < |mesh|
    ensures var now := Run(name, folder, author, mesh, steps);
            var tail := TailOf(now[i - 1].db.log, folder, now[i].cursor);
            && (forall e :: e in tail ==> (Reconcile(name, now[i].db, e).Conflict? <==> Outdated(now[i].db, e)))
            && (!now[i].partial ==> NoneOutdated(tail, now[i].db))
  {
    hide Follows, AllNew, TailOf, Outdated, Contradicts, Reconcile;
    ReachableMesh(name, folder, author, mesh, steps);
    var now := Run(name, folder, author, mesh, steps);
    var producer, consumer := now[i - 1].db, now[i];
    assert NodeOk(folder, author, producer) && Linked(author, producer, consumer);
    hide MeshInv, RegularRun, Inv, SingleAuthor;
    var c := consumer.cursor;
    var m :| c <= m <= |producer.log| && (!consumer.partial ==> m == c) &&
      Follows(author, producer.log[..m], consumer.db);
    DeltaIsTheRest(folder, author, producer, c);
    RepullConflictIff(name, author, folder, producer.log, c, m, consumer.db);
    if !consumer.partial {
      forall j | c <= j < |producer.log| ensures !Outdated(consumer.db, producer.log[j]) {
        NewVerdict(name, author, folder, producer.log, m, j, consumer.db);
      }
    }
  }

  lemma CaughtUpFollows(name: Naming, folder: string, author: string, mesh: seq<Node>, steps: seq<Step>, i: nat)
    requires AllNew(folder, mesh) && RegularRun(name, folder, author, mesh, steps) && 1 <= i < |mesh|
    requires var now := Run(name, folder, author, mesh, steps); now[i].cursor == |now[i - 1].db.log|
    ensures var now := Run(name, folder, author, mesh, steps);
            && NodeOk(folder, author, now[i - 1].db) && SingleAuthor(now[i - 1].db.log, folder, author)
            && Follows(author, now[i - 1].db.log, now[i].db)
  {
    hide Follows, AllNew, RegularRun, Inv, SingleAuthor;
    ReachableMesh(name, folder, author, mesh, steps);
    var now := Run(name, folder, author, mesh, steps);
    hide Run;
    assert NodeOk(folder, author, now[i - 1].db) && Linked(author, now[i - 1].db, now[i]);
    assert now[i - 1].db.log[..|now[i - 1].db.log|] == now[i - 1].db.log;
  }

  /**
   Exactly when a node that was caught up and restarts meets a conflict: a path is live with another content than some
   edit of its past.
   */
  lemma RestartConflictIff(name: Naming, folder: string, author: string, mesh: seq<Node>, steps: seq<Step>, i: nat)
    requires AllNew(folder, mesh) && RegularRun(name, folder, author, mesh, steps) && 1 <= i < |mesh|
    requires var now := Run(name, folder, author, mesh, steps); now[i].cursor == |now[i - 1].db.log|
    ensures var now := Run(name, folder, author, mesh, steps);
            var again := TailOf(now[i - 1].db.log, folder, Restarted(now[i]).cursor);
            (exists act :: act in ReconcileAll(name, now[i].db, again) && act.Conflict?) <==>
              exists e :: e in now[i - 1].db.log && Contradicts(now[i].db, e)
  {
    hide Follows, AllNew, TailOf, Contradicts, ReconcileAll, RegularRun, NodeOk, SingleAuthor, Run;
    CaughtUpFollows(name, folder, author, mesh, steps, i);
    var now := Run(name, folder, author, mesh, steps);
    var log := now[i - 1].db.log;
    DeltaIsTheRest(folder, author, now[i - 1].db, 0);
    assert log[0..] == log && log[0..|log|] == log && log[..|log|] == log;
    RepullConflictIff(name, author, folder, log, 0, |log|, now[i].db);
  }

  /** So a file edited twice is branched by every node that has both edits and restarts. */
  lemma RestartBranchesOldEdit(name: Naming, folder: string, author: string, mesh: seq<Node>, steps: seq<Step>,
                               i: nat, a: nat, b: nat)
    requires AllNew(folder, mesh) && RegularRun(name, folder, author, mesh, steps) && 1 <= i < |mesh|
    requires var now := Run(name, folder, author, mesh, steps); now[i].cursor == |now[i - 1].db.log|
    requires var log := Run(name, folder, author, mesh, steps)[i - 1].db.log;
             a < b < |log| && IsLastOfPath(log, b) && At(log[a]) == At(log[b]) &&
             log[a].kind == log[b].kind == Upsert && log[a].hash != log[b].hash
    ensures var log := Run(name, folder, author, mesh, steps)[i - 1].db.log;
            && log[a] in TailOf(log, folder, 0)
            && Reconcile(name, Run(name, folder, author, mesh, steps)[i].db, log[a]).Conflict?
  {
    hide Follows, AllNew, Reconcile, RegularRun, NodeOk, SingleAuthor, Run, IsLastOfPath, TailOf;
    CaughtUpFollows(name, folder, author, mesh, steps, i);
    var now := Run(name, folder, author, mesh, steps);
    var log := now[i - 1].db.log;
    DeltaIsTheRest(folder, author, now[i - 1].db, 0);
    assert log[0..] == log;
    ReplacedEditConflicts(name, author, folder, log, now[i].db, a, b);
  }
  // ---------- edits spread ----------

  lemma LiveAfterEdit(a: Db, b: Db, r: Result<SyncEvent, DbError>, k: Key, size: nat, hash: string, node: string,
                      now: int)
    requires Edits(a, b, r, k, size, hash, node, now)
    ensures Live(b) == if r.Err? then Live(a) else Live(a)[k := hash]
  {
    hide IsContentId, Records, Appends;
  }

  lemma LiveAfterDelete(a: Db, b: Db, r: Option<SyncEvent>, k: Key, node: string, now: int)
    requires Deletes(a, b, r, k, node, now)
    ensures Live(b) == Live(a) - {k}
  {
    hide Records, Appends;
  }

  /** An edit of the author shows among its live files, unless the store refuses it. */
  lemma EditShows(name: Naming, folder: string, author: string, mesh: seq<Node>, path: string, size: nat, hash: string,
                  now: int)
    requires mesh != []
    ensures var k, after := Key(folder, Normalize(path)), Next(name, folder, author, mesh, Edit(path, size, hash, now));
            Live(after[0].db) == if EditRefused(mesh[0].db, k, hash) then Live(mesh[0].db)
              else Live(mesh[0].db)[k := hash]
  {
    hide Normalize, LocalUpsert, EditRefused, Live, Edits;
    LocalUpsertEdits(mesh[0].db, folder, path, size, hash, author, now);
    var out, k := LocalUpsert(mesh[0].db, folder, path, size, hash, author, now), Key(folder, Normalize(path));
    var after := if out.Ok? then out.value.0 else mesh[0].db;
    LiveAfterEdit(mesh[0].db, after, if out.Ok? then Ok(out.value.1) else Err(out.error), k, size, hash, author, now);
  }

  /** An erased file does not show among them. */
  lemma EraseShows(name: Naming, folder: string, author: string, mesh: seq<Node>, path: string, now: int)
    requires mesh != []
    ensures var k, after := Key(folder, Normalize(path)), Next(name, folder, author, mesh, Erase(path, now));
            Live(after[0].db) == Live(mesh[0].db) - {k}
  {
    hide Normalize, LocalDelete, Live, Deletes;
    LocalDeleteDeletes(mesh[0].db, folder, path, author, now);
    var out := LocalDelete(mesh[0].db, folder, path, author, now);
    LiveAfterDelete(mesh[0].db, out.0, out.1, Key(folder, Normalize(path)), author, now);
  }

  /** The nodes 1 to `n` pull one after the other. */
  function Sweep(n: nat, weather: nat -> Env): (steps: seq<Step>) {
    if n == 0 then [] else Sweep(n - 1, weather) + [Pull(n, weather)]
  }

  lemma RunMore(name: Naming, folder: string, author: string, mesh: seq<Node>, steps: seq<Step>, s: Step)
    ensures Run(name, folder, author, mesh, steps + [s]) ==
              Next(name, folder, author, Run(name, folder, author, mesh, steps), s)
    ensures RegularRun(name, folder, author, mesh, steps + [s]) <==>
              RegularRun(name, folder, author, mesh, steps) &&
              Regular(folder, Run(name, folder, author, mesh, steps), s)
  {
    assert (steps + [s])[..|steps|] == steps;
  }

  lemma {:induction false} SweepCatchesUp(name: Naming, folder: string, author: string, mesh: seq<Node>,
                                          steps: seq<Step>,
                                          n: nat, weather: nat -> Env)
    requires AllNew(folder, mesh) && n < |mesh| && forall j :: weather(j).sent
    requires RegularRun(name, folder, author, mesh, steps + Sweep(n, weather))
    ensures var now := Run(name, folder, author, mesh, steps + Sweep(n, weather));
            forall i :: 1 <= i <= n ==> now[i].cursor == |now[i - 1].db.log|
    ensures Run(name, folder, author, mesh, steps + Sweep(n, weather))[0] == Run(name, folder, author, mesh, steps)[0]
  {
    hide AllNew, RegularRun, Regular, PullFrom, Run, TailOf, ReconcileAll;
    if n == 0 {
      assert steps + [] == steps;
    } else {
      var before := steps + Sweep(n - 1, weather);
      assert steps + Sweep(n, weather) == before + [Pull(n, weather)];
      RunMore(name, folder, author, mesh, before, Pull(n, weather));
      SweepCatchesUp(name, folder, author, mesh, steps, n - 1, weather);
      PullsNeverConflict(name, folder, author, mesh, before, n, weather);
    }
  }

  /**
   After any regular run, one undisturbed pull of every node in turn leaves all of them with the author's live files.
   */
  lemma SweepConverges(name: Naming, folder: string, author: string, mesh: seq<Node>, steps: seq<Step>,
                       weather: nat -> Env, i: nat)
    requires AllNew(folder, mesh) && i < |mesh| && forall j :: weather(j).sent
    requires RegularRun(name, folder, author, mesh, steps + Sweep(|mesh| - 1, weather))
    ensures Live(Run(name, folder, author, mesh, steps + Sweep(|mesh| - 1, weather))[i].db) ==
              Live(Run(name, folder, author, mesh, steps)[0].db)
  {
    hide AllNew, RegularRun, Run, Live;
    SweepCatchesUp(name, folder, author, mesh, steps, |mesh| - 1, weather);
    MeshConverges(name, folder, author, mesh, steps + Sweep(|mesh| - 1, weather), i);
  }
}
