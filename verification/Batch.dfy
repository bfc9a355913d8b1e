/**
 A pulled batch: all events are reconciled against one snapshot, then the actions are applied
 one by one until the first failure (service.rs `reconcile_remote_events`, coordinator.rs `do_reconcile`).
 */
module Batch {
  import opened Outcomes
  import opened Paths
  import opened Catalogue
  import opened Reconciler

  /** What the surroundings decide about one action: whether its pull request could be sent, and the time. */
  datatype Env = Env(sent: bool, now: int)

  /** The store after a batch, and how many actions were carried out before the first failure. */
  datatype Outcome = Outcome(db: Db, done: nat)

  predicate NeedsPeer(act: Action) {
    act.DownloadNeeded? || act.Conflict?
  }

  function Carry(db: Db, act: Action, env: Env): (db': Option<Db>) {
    if NeedsPeer(act) && !env.sent then None
    else match Apply(db, act, env.now)
         case Ok(db') => Some(db')
         case Err(_) => None
  }

  function ReconcileAll(name: Naming, db: Db, evs: seq<SyncEvent>): (acts: seq<Action>)
    ensures |acts| == |evs|
  {
    seq(|evs|, i requires 0 <= i < |evs| => Reconcile(name, db, evs[i]))
  }

  function ApplyAll(db: Db, acts: seq<Action>, envs: seq<Env>): (r: Outcome)
    requires |acts| == |envs|
    ensures r.done <= |acts|
    decreases |acts|
  {
    if acts == [] then Outcome(db, 0)
    else
      match Carry(db, acts[0], envs[0])
      case None => Outcome(db, 0)
      case Some(db') =>
        var rest := ApplyAll(db', acts[1..], envs[1..]);
        Outcome(rest.db, rest.done + 1)
  }

  /** The batch as the code runs it. */
  function PullAll(name: Naming, db: Db, evs: seq<SyncEvent>, envs: seq<Env>): (r: Outcome)
    requires |evs| == |envs|
    ensures r.done <= |evs|
  {
    ApplyAll(db, ReconcileAll(name, db, evs), envs)
  }

  /** The simple form: reconcile and apply one event at a time. */
  function StepAll(name: Naming, db: Db, evs: seq<SyncEvent>, envs: seq<Env>): (r: Outcome)
    requires |evs| == |envs|
    ensures r.done <= |evs|
    decreases |evs|
  {
    if evs == [] then Outcome(db, 0)
    else
      match Carry(db, Reconcile(name, db, evs[0]), envs[0])
      case None => Outcome(db, 0)
      case Some(db') =>
        var rest := StepAll(name, db', evs[1..], envs[1..]);
        Outcome(rest.db, rest.done + 1)
  }

  // ---------- the snapshot form refines the simple one ----------

  predicate LeavesAlone(act: Action, k: Key) {
    Writes(act) ==> TargetOf(act) != k
  }

  /** No action writes the path of a later event of its batch. */
  ghost predicate Independent(name: Naming, db: Db, evs: seq<SyncEvent>) {
    forall i, j :: 0 <= i < j < |evs| ==> LeavesAlone(Reconcile(name, db, evs[i]), KeyOf(evs[j]))
  }

  lemma CarryFrame(db: Db, act: Action, env: Env, k: Key)
    requires Carry(db, act, env).Some? && LeavesAlone(act, k)
    ensures var db' := Carry(db, act, env).value;
            (k in db'.files <==> k in db.files) && (k in db.files ==> db'.files[k] == db.files[k])
  {
    ApplyFrame(db, act, env.now, k);
  }

  lemma ReconcileFrame(name: Naming, db: Db, act: Action, env: Env, e: SyncEvent)
    requires Carry(db, act, env).Some? && LeavesAlone(act, KeyOf(e))
    ensures Reconcile(name, Carry(db, act, env).value, e) == Reconcile(name, db, e)
  {
    CarryFrame(db, act, env, KeyOf(e));
  }

  /** Snapshot-then-apply equals one at a time, up to and including the first failure. */
  lemma {:induction false} PullRefinesSteps(name: Naming, db: Db, evs: seq<SyncEvent>, envs: seq<Env>)
    requires |evs| == |envs| && Independent(name, db, evs)
    ensures PullAll(name, db, evs, envs) == StepAll(name, db, evs, envs)
    decreases |evs|
  {
    if evs != [] {
      var acts := ReconcileAll(name, db, evs);
      var carried := Carry(db, acts[0], envs[0]);
      if carried.Some? {
        forall j | 0 < j < |evs|
          ensures Reconcile(name, carried.value, evs[j]) == acts[j]
        {
          ReconcileFrame(name, db, acts[0], envs[0], evs[j]);
        }
        assert ReconcileAll(name, carried.value, evs[1..]) == acts[1..];
        PullRefinesSteps(name, carried.value, evs[1..], envs[1..]);
      }
    }
  }

  // ---------- equality up to timestamps ----------

  predicate SameRow(x: FileRecord, y: FileRecord) {
    x.(modifiedAt := 0, tombstoneAt := None) == y.(modifiedAt := 0, tombstoneAt := None)
  }

  predicate SameEvent(x: SyncEvent, y: SyncEvent) {
    x.(modifiedAt := 0) == y.(modifiedAt := 0)
  }

  ghost predicate SameLog(a: seq<SyncEvent>, b: seq<SyncEvent>) {
    |a| == |b| && forall i :: 0 <= i < |a| ==> SameEvent(a[i], b[i])
  }

  ghost predicate SameFiles(a: map<Key, FileRecord>, b: map<Key, FileRecord>) {
    a.Keys == b.Keys && forall k :: k in a ==> SameRow(a[k], b[k])
  }

  /** Two stores that differ in timestamps at most. */
  ghost predicate Same(a: Db, b: Db) {
    a.folders == b.folders && a.nextSeq == b.nextSeq && SameFiles(a.files, b.files) && SameLog(a.log, b.log)
  }

  /** What is the same: everything but the four kinds of timestamp. */
  lemma SameSaysAllButTimes(a: Db, b: Db, k: Key, i: nat)
    requires Same(a, b)
    ensures a.folders == b.folders && a.nextSeq == b.nextSeq && |a.log| == |b.log| && (k in a.files <==> k in b.files)
    ensures k in a.files ==>
              var x, y := a.files[k], b.files[k];
              x.fileId == y.fileId && x.size == y.size && x.hash == y.hash && x.version == y.version &&
              x.origin == y.origin && x.isDeleted == y.isDeleted
    ensures i < |a.log| ==>
              var x, y := a.log[i], b.log[i];
              x.seqNo == y.seqNo && x.folder == y.folder && x.fileId == y.fileId && x.path == y.path &&
                x.kind == y.kind &&
              x.version == y.version && x.size == y.size && x.hash == y.hash && x.origin == y.origin
  {
    assert k in a.files ==> SameRow(a.files[k], b.files[k]);
    assert i < |a.log| ==> SameEvent(a.log[i], b.log[i]);
  }

  lemma SameTransitive(a: Db, b: Db, c: Db)
    requires Same(a, b) && Same(b, c)
    ensures Same(a, c)
  {}

  lemma SameLogged(a: seq<SyncEvent>, b: seq<SyncEvent>, x: SyncEvent, y: SyncEvent)
    requires SameLog(a, b) && SameEvent(x, y)
    ensures AlreadyLogged(a, x) <==> AlreadyLogged(b, y)
  {
    assert forall i :: 0 <= i < |a| ==> (SameEntry(a[i], x) <==> SameEntry(b[i], y));
  }

  lemma SamePut(a: Db, b: Db, x: SyncEvent, y: SyncEvent)
    requires Same(a, b) && SameEvent(x, y) && x.kind == Upsert
    ensures PutRemote(a, x).Ok? <==> PutRemote(b, y).Ok?
    ensures PutRemote(a, x).Ok? ==> Same(PutRemote(a, x).value, PutRemote(b, y).value)
  {
    SameLogged(a.log, b.log, x, y);
    assert IdTaken(a, At(x), x.fileId) <==> IdTaken(b, At(y), y.fileId);
  }

  lemma SameBury(a: Db, b: Db, x: SyncEvent, y: SyncEvent, s: int, t: int)
    requires Same(a, b) && SameEvent(x, y) && x.kind == Delete
    ensures BuryRemote(a, x, s).Ok? <==> BuryRemote(b, y, t).Ok?
    ensures BuryRemote(a, x, s).Ok? ==> Same(BuryRemote(a, x, s).value, BuryRemote(b, y, t).value)
  {
    SameLogged(a.log, b.log, x, y);
    SameLogged(a.log, b.log, x.(size := 0), y.(size := 0));
  }

  lemma SameCarry(a: Db, b: Db, act: Action, s: Env, t: Env)
    requires Same(a, b) && (NeedsPeer(act) ==> s.sent == t.sent)
    ensures Carry(a, act, s).Some? <==> Carry(b, act, t).Some?
    ensures Carry(a, act, s).Some? ==> Same(Carry(a, act, s).value, Carry(b, act, t).value)
  {
    hide Same, PutRemote, BuryRemote;
    if Writes(act) {
      var x, y := EventOf(act, s.now), EventOf(act, t.now);
      if x.kind == Upsert {
        SamePut(a, b, x, y);
      } else {
        SameBury(a, b, x, y, s.now, t.now);
      }
    }
  }

  predicate AllSent(envs: seq<Env>) {
    forall i :: 0 <= i < |envs| ==> envs[i].sent
  }

  lemma {:induction false} SameApplyAll(a: Db, b: Db, acts: seq<Action>, s: seq<Env>, t: seq<Env>)
    requires Same(a, b) && |acts| == |s| == |t| && AllSent(s) && AllSent(t)
    ensures ApplyAll(a, acts, s).done == ApplyAll(b, acts, t).done
    ensures Same(ApplyAll(a, acts, s).db, ApplyAll(b, acts, t).db)
    decreases |acts|
  {
    hide Same;
    if acts != [] {
      SameCarry(a, b, acts[0], s[0], t[0]);
      var x, y := Carry(a, acts[0], s[0]), Carry(b, acts[0], t[0]);
      if x.Some? {
        SameApplyAll(x.value, y.value, acts[1..], s[1..], t[1..]);
      }
    }
  }

  // ---------- taking the same event in again ----------

  /** The verdict changes nothing but timestamps: no write, or the conflict copy is already there. */
  ghost predicate Idle(db: Db, act: Action) {
    match act
    case UpToDate(_, _) => true
    case Ignore => true
    case Conflict(_, _, _, _, _, _, _, _) =>
      var e := EventOf(act, 0);
      At(e) in db.files && SameRow(db.files[At(e)], LiveRow(e)) && AlreadyLogged(db.log, e) &&
      !IdTaken(db, At(e), e.fileId) && e.folder in db.folders
    case _ => false
  }

  ghost predicate Settled(name: Naming, db: Db, e: SyncEvent) {
    Idle(db, Reconcile(name, db, e))
  }

  lemma IdlePut(db: Db, b: Db, e: SyncEvent, now: int)
    requires Same(db, b) && e.kind == Upsert && At(e) in db.files && SameRow(db.files[At(e)], LiveRow(e))
    requires AlreadyLogged(db.log, e) && !IdTaken(db, At(e), e.fileId) && e.folder in db.folders
    ensures PutRemote(b, e.(modifiedAt := now)).Ok? && Same(db, PutRemote(b, e.(modifiedAt := now)).value)
  {
    var x := e.(modifiedAt := now);
    SameLogged(db.log, b.log, e, x);
    assert !IdTaken(b, At(e), e.fileId);
  }

  lemma IdleCarry(db: Db, b: Db, act: Action, env: Env)
    requires Same(db, b) && Idle(db, act) && env.sent
    ensures Carry(b, act, env).Some? && Same(db, Carry(b, act, env).value)
  {
    hide Same, PutRemote, AlreadyLogged, IdTaken;
    if act.Conflict? {
      var e := EventOf(act, 0);
      IdlePut(db, b, e, env.now);
      assert EventOf(act, env.now) == e.(modifiedAt := env.now);
    }
  }

  lemma PutLeavesIdle(db: Db, e: SyncEvent)
    requires e.kind == Upsert && PutRemote(db, e).Ok?
    ensures var db' := PutRemote(db, e).value;
            db'.files == db.files[At(e) := LiveRow(e)] && AlreadyLogged(db'.log, e) &&
            !IdTaken(db', At(e), e.fileId) && e.folder in db'.folders
  {
    var db' := PutRemote(db, e).value;
    if !AlreadyLogged(db.log, e) {
      assert SameEntry(db'.log[|db.log|], e);
    }
  }

  /** Once an event has been taken in, taking it in again is idle. */
  lemma CarrySettles(name: Naming, db: Db, e: SyncEvent, env: Env)
    requires Carry(db, Reconcile(name, db, e), env).Some?
    ensures Settled(name, Carry(db, Reconcile(name, db, e), env).value, e)
  {
    hide PutRemote, IdTaken, AlreadyLogged, Normalize;
    var act := Reconcile(name, db, e);
    if act.Conflict? {
      BranchTarget(name, e);
      PutLeavesIdle(db, EventOf(act, env.now));
      SameLogged(Carry(db, act, env).value.log, Carry(db, act, env).value.log, EventOf(act, env.now), EventOf(act, 0));
    } else if act.DownloadNeeded? {
      PutLeavesIdle(db, EventOf(act, env.now));
    }
  }

  /** Absorption: a second delivery of the same event changes no more than timestamps. */
  lemma SecondDeliveryIsAbsorbed(name: Naming, db: Db, e: SyncEvent, s: int, t: int)
    requires RemoteStep(name, db, e, s).Ok?
    ensures var once := RemoteStep(name, db, e, s).value;
            RemoteStep(name, once, e, t).Ok? && Same(once, RemoteStep(name, once, e, t).value)
  {
    hide Apply, Idle;
    CarrySettles(name, db, e, Env(true, s));
    var once := RemoteStep(name, db, e, s).value;
    IdleCarry(once, once, Reconcile(name, once, e), Env(true, t));
  }

  // ---------- retrying a batch ----------

  predicate KeepsClear(name: Naming, act: Action, db: Db, e: SyncEvent) {
    LeavesAlone(act, KeyOf(e)) &&
    (Reconcile(name, db, e).Conflict? ==> LeavesAlone(act, TargetOf(Branch(name, e))))
  }

  /** Every action writes a row that no other event of the batch reads or writes. */
  ghost predicate Separate(name: Naming, db: Db, evs: seq<SyncEvent>) {
    forall i, j :: 0 <= i < |evs| && 0 <= j < |evs| && i != j ==>
      KeepsClear(name, Reconcile(name, db, evs[i]), db, evs[j])
  }

  /** What can be seen from the events alone: paths and conflict names are pairwise distinct. */
  ghost predicate DistinctNames(name: Naming, evs: seq<SyncEvent>) {
    forall i, j :: 0 <= i < |evs| && 0 <= j < |evs| && i != j ==> Apart(name, evs[i], evs[j])
  }

  predicate Apart(name: Naming, x: SyncEvent, y: SyncEvent) {
    KeyOf(x) != KeyOf(y) && TargetOf(Branch(name, x)) != KeyOf(y) &&
      TargetOf(Branch(name, x)) != TargetOf(Branch(name, y))
  }

  lemma ApartIsClear(name: Naming, db: Db, x: SyncEvent, y: SyncEvent)
    requires Apart(name, x, y) && Apart(name, y, x)
    ensures KeepsClear(name, Reconcile(name, db, x), db, y)
  {
    hide Normalize;
  }

  /** Such a batch meets the conditions of both theorems, on any store. */
  lemma DistinctNamesSuffice(name: Naming, db: Db, evs: seq<SyncEvent>)
    requires DistinctNames(name, evs)
    ensures Separate(name, db, evs) && Independent(name, db, evs)
  {
    hide Apart, KeepsClear;
    forall i, j | 0 <= i < |evs| && 0 <= j < |evs| && i != j
      ensures KeepsClear(name, Reconcile(name, db, evs[i]), db, evs[j])
    {
      ApartIsClear(name, db, evs[i], evs[j]);
    }
    SeparateIsIndependent(name, db, evs);
  }

  lemma SeparateIsIndependent(name: Naming, db: Db, evs: seq<SyncEvent>)
    requires Separate(name, db, evs)
    ensures Independent(name, db, evs)
  {
    hide LeavesAlone, Reconcile;
    forall i, j | 0 <= i < j < |evs| ensures LeavesAlone(Reconcile(name, db, evs[i]), KeyOf(evs[j])) {
      assert KeepsClear(name, Reconcile(name, db, evs[i]), db, evs[j]);
    }
  }

  lemma SettledFrame(name: Naming, db: Db, e: SyncEvent, act: Action, env: Env)
    requires Settled(name, db, e) && Carry(db, act, env).Some? && KeepsClear(name, act, db, e)
    ensures Settled(name, Carry(db, act, env).value, e)
    ensures Reconcile(name, Carry(db, act, env).value, e) == Reconcile(name, db, e)
  {
    ReconcileFrame(name, db, act, env, e);
    hide Reconcile, Carry, EventOf;
    if Reconcile(name, db, e).Conflict? {
      CopyStays(db, EventOf(Reconcile(name, db, e), 0), act, env);
    }
  }

  /** A conflict copy that is in place stays so, whatever is written elsewhere. */
  lemma CopyStays(db: Db, x: SyncEvent, act: Action, env: Env)
    requires Carry(db, act, env).Some? && LeavesAlone(act, At(x))
    requires At(x) in db.files && SameRow(db.files[At(x)], LiveRow(x)) && AlreadyLogged(db.log, x)
    requires !IdTaken(db, At(x), x.fileId) && x.folder in db.folders
    ensures var db' := Carry(db, act, env).value;
            At(x) in db'.files && SameRow(db'.files[At(x)], LiveRow(x)) && AlreadyLogged(db'.log, x) &&
            !IdTaken(db', At(x), x.fileId) && x.folder in db'.folders
  {
    CarryFrame(db, act, env, At(x));
    hide Commit, IdTaken, AlreadyLogged, EventOf;
    if Writes(act) {
      CommitKeepsOthersIds(db, EventOf(act, env.now), x);
      LoggedStays(db, EventOf(act, env.now), x);
      CommitGrows(db, EventOf(act, env.now));
    }
  }

  lemma LoggedStays(db: Db, e: SyncEvent, x: SyncEvent)
    requires Commit(db, e).Ok? && AlreadyLogged(db.log, x)
    ensures AlreadyLogged(Commit(db, e).value.log, x)
  {
    CommitGrows(db, e);
    var i :| 0 <= i < |db.log| && SameEntry(db.log[i], x);
    assert Commit(db, e).value.log[i] == db.log[i];
  }

  lemma CommitKeepsOthersIds(db: Db, e: SyncEvent, x: SyncEvent)
    requires Commit(db, e).Ok? && At(e) != At(x) && At(x) in db.files && db.files[At(x)].fileId == x.fileId
    requires !IdTaken(db, At(x), x.fileId)
    ensures !IdTaken(Commit(db, e).value, At(x), x.fileId)
  {
    var db' := Commit(db, e).value;
    forall k | k in db'.files && k != At(x) ensures db'.files[k].fileId != x.fileId {
      if k == At(e) && e.kind == Upsert {
        assert !IdTaken(db, At(e), e.fileId);
      }
    }
  }

  lemma {:induction false} SettledThrough(name: Naming, db: Db, e: SyncEvent, acts: seq<Action>, envs: seq<Env>)
    requires |acts| == |envs| && Settled(name, db, e)
    requires forall i :: 0 <= i < |acts| ==> KeepsClear(name, acts[i], db, e)
    ensures Settled(name, ApplyAll(db, acts, envs).db, e)
    decreases |acts|
  {
    hide Settled, Carry;
    if acts != [] {
      var carried := Carry(db, acts[0], envs[0]);
      if carried.Some? {
        assert KeepsClear(name, acts[0], db, e);
        SettledFrame(name, db, e, acts[0], envs[0]);
        SettledThrough(name, carried.value, e, acts[1..], envs[1..]);
      }
    }
  }

  /** After any interrupted attempt: what was applied is settled, and the rest is judged as before. */
  lemma {:induction false} AfterInterruption(name: Naming, db: Db, evs: seq<SyncEvent>, envs: seq<Env>, i: nat)
    requires |evs| == |envs| && Separate(name, db, evs) && i < |evs|
    ensures var r := PullAll(name, db, evs, envs);
            if i < r.done then Settled(name, r.db, evs[i])
            else Reconcile(name, r.db, evs[i]) == Reconcile(name, db, evs[i])
    decreases |evs|
  {
    hide Settled, Carry, Reconcile;
    var acts := ReconcileAll(name, db, evs);
    var carried := Carry(db, acts[0], envs[0]);
    if carried.Some? {
      var mid := carried.value;
      forall j | 0 < j < |evs| ensures Reconcile(name, mid, evs[j]) == acts[j] {
        assert KeepsClear(name, acts[0], db, evs[j]);
        ReconcileFrame(name, db, acts[0], envs[0], evs[j]);
      }
      assert ReconcileAll(name, mid, evs[1..]) == acts[1..];
      if i == 0 {
        CarrySettles(name, db, evs[0], envs[0]);
        forall j | 0 < j < |evs| ensures KeepsClear(name, acts[j], mid, evs[0]) {
          assert KeepsClear(name, acts[j], db, evs[0]);
          SameBranching(name, db, evs[0], envs[0]);
        }
        assert forall j :: 0 <= j < |acts[1..]| ==> acts[1..][j] == acts[j + 1];
        SettledThrough(name, mid, evs[0], acts[1..], envs[1..]);
      } else {
        SeparateRest(name, db, mid, evs);
        AfterInterruption(name, mid, evs[1..], envs[1..], i - 1);
      }
    }
  }

  lemma SameBranching(name: Naming, db: Db, e: SyncEvent, env: Env)
    requires Carry(db, Reconcile(name, db, e), env).Some?
    ensures Reconcile(name, Carry(db, Reconcile(name, db, e), env).value, e).Conflict? ==>
              Reconcile(name, db, e).Conflict?
  {
    if Writes(Reconcile(name, db, e)) {
      TargetNotOwn(name, db, e);
    }
  }

  lemma TargetNotOwn(name: Naming, db: Db, e: SyncEvent)
    requires Writes(Reconcile(name, db, e))
    ensures TargetOf(Reconcile(name, db, e)) == KeyOf(e) <==> !Reconcile(name, db, e).Conflict?
  {
    TargetIsOwnPath(name, GetFile(db, e.folder, e.path), e);
  }

  lemma SeparateRest(name: Naming, db: Db, mid: Db, evs: seq<SyncEvent>)
    requires |evs| > 0 && Separate(name, db, evs)
    requires forall j :: 0 < j < |evs| ==> Reconcile(name, mid, evs[j]) == Reconcile(name, db, evs[j])
    ensures Separate(name, mid, evs[1..])
  {
    var rest := evs[1..];
    forall i, j | 0 <= i < |rest| && 0 <= j < |rest| && i != j
      ensures KeepsClear(name, Reconcile(name, mid, rest[i]), mid, rest[j])
    {
      assert rest[i] == evs[i + 1] && rest[j] == evs[j + 1];
      assert KeepsClear(name, Reconcile(name, db, evs[i + 1]), db, evs[j + 1]);
    }
  }

  lemma {:induction false} IdlePrefix(db: Db, b: Db, acts: seq<Action>, envs: seq<Env>, p: nat)
    requires |acts| == |envs| && p <= |acts| && AllSent(envs) && Same(db, b)
    requires forall i :: 0 <= i < p ==> Idle(db, acts[i])
    ensures ApplyAll(b, acts, envs).done == p + ApplyAll(db, acts[p..], envs[p..]).done
    ensures Same(ApplyAll(b, acts, envs).db, ApplyAll(db, acts[p..], envs[p..]).db)
    decreases p
  {
    hide Same, Idle;
    if p == 0 {
      assert acts[p..] == acts && envs[p..] == envs;
      SameSymmetric(db, b);
      SameApplyAll(b, db, acts, envs, envs);
    } else {
      IdleCarry(db, b, acts[0], envs[0]);
      IdlePrefix(db, Carry(b, acts[0], envs[0]).value, acts[1..], envs[1..], p - 1);
      assert acts[1..][p - 1..] == acts[p..] && envs[1..][p - 1..] == envs[p..];
    }
  }

  lemma SameSymmetric(a: Db, b: Db)
    requires Same(a, b)
    ensures Same(b, a)
  {}

  lemma {:induction false} CleanRunPassesInterruption(db: Db, b: Db, acts: seq<Action>, first: seq<Env>,
                                                      clean: seq<Env>)
    requires |acts| == |first| == |clean| && AllSent(clean) && Same(db, b)
    ensures var r := ApplyAll(db, acts, first);
            ApplyAll(b, acts, clean).done == r.done + ApplyAll(r.db, acts[r.done..], clean[r.done..]).done &&
            Same(ApplyAll(b, acts, clean).db, ApplyAll(r.db, acts[r.done..], clean[r.done..]).db)
    decreases |acts|
  {
    hide Same;
    var r := ApplyAll(db, acts, first);
    if r.done == 0 {
      assert acts[0..] == acts && clean[0..] == clean;
      SameSymmetric(db, b);
      SameApplyAll(b, db, acts, clean, clean);
    } else {
      SameCarry(db, b, acts[0], first[0], clean[0]);
      var x, y := Carry(db, acts[0], first[0]), Carry(b, acts[0], clean[0]);
      CleanRunPassesInterruption(x.value, y.value, acts[1..], first[1..], clean[1..]);
      assert acts[1..][r.done - 1..] == acts[r.done..] && clean[1..][r.done - 1..] == clean[r.done..];
    }
  }

  /** Retrying a whole batch after a failure at any point ends where one clean run ends, up to timestamps. */
  lemma RetryIsSafe(name: Naming, db: Db, evs: seq<SyncEvent>, first: seq<Env>, retry: seq<Env>, clean: seq<Env>)
    requires |evs| == |first| == |retry| == |clean| && AllSent(retry) && AllSent(clean)
    requires Separate(name, db, evs)
    ensures var interrupted := PullAll(name, db, evs, first).db;
            PullAll(name, interrupted, evs, retry).done == PullAll(name, db, evs, clean).done &&
            Same(PullAll(name, interrupted, evs, retry).db, PullAll(name, db, evs, clean).db)
  {
    hide Same, Idle, Separate, Reconcile;
    var r := PullAll(name, db, evs, first);
    var acts, again := ReconcileAll(name, db, evs), ReconcileAll(name, r.db, evs);
    forall i | 0 <= i < |evs|
      ensures if i < r.done then Idle(r.db, again[i]) else again[i] == acts[i]
    {
      AfterInterruption(name, db, evs, first, i);
    }
    var p := r.done;
    assert again[p..] == acts[p..];
    SameReflexive(db);
    SameReflexive(r.db);
    IdlePrefix(r.db, r.db, again, retry, p);
    CleanRunPassesInterruption(db, db, acts, first, clean);
    SameApplyAll(r.db, r.db, acts[p..], retry[p..], clean[p..]);
    var x, y := ApplyAll(r.db, again, retry).db, ApplyAll(r.db, acts[p..], retry[p..]).db;
    var z, w := ApplyAll(r.db, acts[p..], clean[p..]).db, ApplyAll(db, acts, clean).db;
    SameTransitive(x, y, z);
    SameSymmetric(w, z);
    SameTransitive(x, z, w);
  }

  lemma SameReflexive(a: Db)
    ensures Same(a, a)
  {}
}
