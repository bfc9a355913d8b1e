/**
 What arbitrary messages, in any order and cut anywhere, can and cannot do to a receiver
 (receiver.rs `handle_init`, `handle_chunk`, `handle_complete`).
 */
module Placement {
  import opened Outcomes
  import opened Codec
  import opened Transfer

  datatype Delivery = Delivery(m: Message, c: Cut)

  /** A receiver that has seen nothing yet. */
  function Empty(folders: set<string>): (r: Receiver) {
    Receiver(map[], map[], map[], map[], folders)
  }

  function Run(w: World, r: Receiver, ds: seq<Delivery>): (r': Receiver) {
    if ds == [] then r
    else HandleCut(w, Run(w, r, ds[..|ds| - 1]), ds[|ds| - 1].m, ds[|ds| - 1].c)
  }

  // ---------- what a state in the receiver rests on ----------

  /** The init announces the content and the destination of this state. */
  predicate Announces(w: World, m: Message, id: string, st: TransferState) {
    m.Init? && m.id == id && m.hash == st.hash && m.size == st.size && m.folder == st.folder &&
    w.clean(m.name) == Some(st.fileName)
  }

  ghost predicate Announced(w: World, ds: seq<Delivery>, id: string, st: TransferState) {
    exists i :: 0 <= i < |ds| && Announces(w, ds[i].m, id, st)
  }

  ghost predicate OnDisk(file: seq<Byte>, offset: nat, data: seq<Byte>) {
    forall p :: 0 <= p < |data| ==> offset + p < |file| && file[offset + p] == data[p]
  }

  /**
   Delivery `i` was a chunk of this index whose data matched its own hash, and left that data on disk at its place.
   */
  ghost predicate WroteChunk(w: World, folders: set<string>, ds: seq<Delivery>, i: nat, id: string, index: nat)
    requires i < |ds|
  {
    var m, before, after := ds[i].m, Run(w, Empty(folders), ds[..i]), Run(w, Empty(folders), ds[..i + 1]);
    && m.Chunk? && m.id == id && m.index == index && w.hash(m.data) == m.chunkHash && 1 <= ds[i].c.done
    && id in before.partials && id in after.partials && OnDisk(after.partials[id], m.offset, m.data)
  }

  ghost predicate Proven(w: World, folders: set<string>, ds: seq<Delivery>, id: string, index: nat) {
    exists i :: 0 <= i < |ds| && WroteChunk(w, folders, ds, i, id, index)
  }

  ghost predicate Justified(w: World, folders: set<string>, ds: seq<Delivery>, id: string, st: TransferState) {
    st.id == id && Announced(w, ds, id, st) && forall c :: c in st.completed ==> Proven(w, folders, ds, id, c)
  }

  /** Every state in memory or in a readable state file was announced, and its chunks were written. */
  ghost predicate AllJustified(w: World, folders: set<string>, ds: seq<Delivery>, r: Receiver) {
    (forall id :: id in r.active ==> Justified(w, folders, ds, id, r.active[id])) &&
    (forall id :: id in r.states && r.states[id].Saved? ==> Justified(w, folders, ds, id, r.states[id].state))
  }

  lemma ProvenGrows(w: World, folders: set<string>, ds: seq<Delivery>, d: Delivery, id: string, index: nat)
    requires Proven(w, folders, ds, id, index)
    ensures Proven(w, folders, ds + [d], id, index)
  {
    var i :| 0 <= i < |ds| && WroteChunk(w, folders, ds, i, id, index);
    hide Run, OnDisk;
    assert (ds + [d])[..i] == ds[..i] && (ds + [d])[..i + 1] == ds[..i + 1];
    assert WroteChunk(w, folders, ds + [d], i, id, index);
  }

  lemma JustifiedGrows(w: World, folders: set<string>, ds: seq<Delivery>, d: Delivery, id: string, st: TransferState)
    requires Justified(w, folders, ds, id, st)
    ensures Justified(w, folders, ds + [d], id, st)
  {
    hide Proven, Announces;
    var i :| 0 <= i < |ds| && Announces(w, ds[i].m, id, st);
    assert (ds + [d])[i] == ds[i];
    forall c | c in st.completed ensures Proven(w, folders, ds + [d], id, c) {
      ProvenGrows(w, folders, ds, d, id, c);
    }
  }

  // ---------- effects and plans ----------

  /** An effect that introduces no unjustified state. */
  ghost predicate Clean(w: World, folders: set<string>, ds: seq<Delivery>, x: Effect) {
    match x
    case SaveState(state) => Justified(w, folders, ds, state.id, state)
    case Activate(id, state) => Justified(w, folders, ds, id, state)
    case Remember(id, index) => Proven(w, folders, ds, id, index)
    case _ => true
  }

  lemma CleanEffectKeepsJustified(w: World, folders: set<string>, ds: seq<Delivery>, r: Receiver, x: Effect)
    requires AllJustified(w, folders, ds, r) && Clean(w, folders, ds, x)
    ensures AllJustified(w, folders, ds, Do(r, x))
  {
    hide Announces, Proven, Overwrite, Resized;
    if x.Remember? && x.id in r.active {
      var st := r.active[x.id];
      var st' := st.(completed := st.completed + {x.index});
      assert Justified(w, folders, ds, x.id, st);
      AnnouncedWhole(w, ds, x.id, st, st');
      assert Justified(w, folders, ds, x.id, st');
    }
  }

  lemma AnnouncedWhole(w: World, ds: seq<Delivery>, id: string, a: TransferState, b: TransferState)
    requires Announced(w, ds, id, a) && b == a.(completed := b.completed)
    ensures Announced(w, ds, id, b)
  {
    var i :| 0 <= i < |ds| && Announces(w, ds[i].m, id, a);
    assert Announces(w, ds[i].m, id, b);
  }

  lemma {:induction false} CleanPlanKeepsJustified(w: World, folders: set<string>, ds: seq<Delivery>, r: Receiver,
                                                   plan: seq<Effect>)
    requires AllJustified(w, folders, ds, r) && forall i :: 0 <= i < |plan| ==> Clean(w, folders, ds, plan[i])
    ensures AllJustified(w, folders, ds, Perform(r, plan))
    decreases |plan|
  {
    hide AllJustified, Clean, Do;
    if plan != [] {
      CleanEffectKeepsJustified(w, folders, ds, r, plan[0]);
      CleanPlanKeepsJustified(w, folders, ds, Do(r, plan[0]), plan[1..]);
    }
  }

  /** A chunk whose handler got as far as its first effect is on disk, however the handler ended. */
  lemma ChunkReachesDisk(w: World, r: Receiver, m: Message, c: Cut)
    requires m.Chunk? && w.hash(m.data) == m.chunkHash && m.id in r.partials && 1 <= c.done
    ensures m.id in HandleCut(w, r, m, c).partials && OnDisk(HandleCut(w, r, m, c).partials[m.id], m.offset, m.data)
  {
    hide Overwrite, PerformCut, Plan, Perform, Tear, Resized, ByteAt;
    OverwriteAt(r.partials[m.id], m.offset, m.data);
    var rest := ChunkPlanShape(w, r, m);
    WrittenStays(r, WriteBytes(m.id, m.offset, m.data), rest, c);
  }

  lemma ChunkPlanShape(w: World, r: Receiver, m: Message) returns (rest: seq<Effect>)
    requires m.Chunk? && w.hash(m.data) == m.chunkHash && m.id in r.partials
    ensures Plan(w, r, m).0 == [WriteBytes(m.id, m.offset, m.data)] + rest
    ensures forall i :: 0 <= i < |rest| ==> Quiet(rest[i])
  {
    rest := Plan(w, r, m).0[1..];
  }

  /** Once the first effect is performed, what follows it in a chunk's plan does not touch the files. */
  lemma WrittenStays(r: Receiver, first: Effect, rest: seq<Effect>, c: Cut)
    requires 1 <= c.done && forall i :: 0 <= i < |rest| ==> Quiet(rest[i])
    ensures PerformCut(r, [first] + rest, c).partials == Do(r, first).partials
  {
    var plan := [first] + rest;
    var n := if c.done < |plan| then c.done else |plan|;
    hide Do;
    assert plan[..n] == [first] + rest[..n - 1];
    PerformOne(r, first);
    PerformAppend(r, [first], rest[..n - 1]);
    QuietPlanKeepsPartials(Do(r, first), rest[..n - 1]);
    assert n < |plan| ==> plan[n] == rest[n - 1];
  }

  predicate Quiet(x: Effect) {
    x.SaveState? || x.Remember?
  }

  lemma {:induction false} QuietPlanKeepsPartials(r: Receiver, plan: seq<Effect>)
    requires forall i :: 0 <= i < |plan| ==> Quiet(plan[i])
    ensures Perform(r, plan).partials == r.partials
    decreases |plan|
  {
    if plan != [] {
      QuietPlanKeepsPartials(Do(r, plan[0]), plan[1..]);
    }
  }

  lemma ChunkIsProven(w: World, folders: set<string>, ds: seq<Delivery>, d: Delivery)
    requires d.m.Chunk? && w.hash(d.m.data) == d.m.chunkHash && 1 <= d.c.done
    requires d.m.id in Run(w, Empty(folders), ds).partials
    ensures Proven(w, folders, ds + [d], d.m.id, d.m.index)
  {
    var more, r := ds + [d], Run(w, Empty(folders), ds);
    ChunkReachesDisk(w, r, d.m, d.c);
    hide OnDisk, HandleCut;
    assert more[..|ds|] == ds && more[..|ds| + 1] == more && more[|ds|] == d;
    assert WroteChunk(w, folders, more, |ds|, d.m.id, d.m.index);
  }

  /** The effects of a handler that were performed are clean: a chunk is only remembered once it is written. */
  lemma PlanIsClean(w: World, folders: set<string>, ds: seq<Delivery>, d: Delivery)
    requires AllJustified(w, folders, ds, Run(w, Empty(folders), ds))
    ensures var plan := Plan(w, Run(w, Empty(folders), ds), d.m).0;
            forall i :: 0 <= i < |plan| && i < d.c.done ==> Clean(w, folders, ds + [d], plan[i])
  {
    hide Proven, Run;
    var more, m, r := ds + [d], d.m, Run(w, Empty(folders), ds);
    assert more[|ds|] == d;
    forall id, st | Justified(w, folders, ds, id, st) ensures Justified(w, folders, more, id, st) {
      JustifiedGrows(w, folders, ds, d, id, st);
    }
    if m.Init? {
      var name := w.clean(m.name);
      if name.Some? {
        assert Announces(w, more[|ds|].m, m.id, NewState(m, name.value));
      }
    } else if m.Chunk? && w.hash(m.data) == m.chunkHash && m.id in r.partials && 1 <= d.c.done {
      ChunkIsProven(w, folders, ds, d);
      if m.id in r.active {
        var st := r.active[m.id];
        var st' := st.(completed := st.completed + {m.index});
        assert Justified(w, folders, more, m.id, st);
        AnnouncedWhole(w, more, m.id, st, st');
        assert Justified(w, folders, more, m.id, st');
      }
    }
  }

  lemma {:induction false} RunIsJustified(w: World, folders: set<string>, ds: seq<Delivery>)
    ensures AllJustified(w, folders, ds, Run(w, Empty(folders), ds))
  {
    hide Justified, Plan, Do, Clean;
    if ds != [] {
      var n := |ds| - 1;
      var before, d := ds[..n], ds[n];
      var r := Run(w, Empty(folders), before);
      RunIsJustified(w, folders, before);
      assert before + [d] == ds;
      PlanIsClean(w, folders, before, d);
      AllGrow(w, folders, before, d, r);
      var plan := Plan(w, r, d.m).0;
      var k := if d.c.done < |plan| then d.c.done else |plan|;
      CleanPlanKeepsJustified(w, folders, ds, r, plan[..k]);
      CutEndKeepsJustified(w, folders, ds, r, plan, d.c);
    }
  }

  lemma CutEndKeepsJustified(w: World, folders: set<string>, ds: seq<Delivery>, r: Receiver, plan: seq<Effect>, c: Cut)
    requires AllJustified(w, folders, ds, Perform(r, plan[..if c.done < |plan| then c.done else |plan|]))
    ensures AllJustified(w, folders, ds, PerformCut(r, plan, c))
  {
    hide Justified, Perform, Overwrite;
  }

  lemma AllGrow(w: World, folders: set<string>, ds: seq<Delivery>, d: Delivery, r: Receiver)
    requires AllJustified(w, folders, ds, r)
    ensures AllJustified(w, folders, ds + [d], r)
  {
    hide Justified;
    forall id, st | Justified(w, folders, ds, id, st) ensures Justified(w, folders, ds + [d], id, st) {
      JustifiedGrows(w, folders, ds, d, id, st);
    }
  }

  /** A chunk is in a checkpoint, in memory or on disk, only after data matching its hash was written at its place. */
  lemma CheckpointsAreProven(w: World, folders: set<string>, ds: seq<Delivery>, id: string, c: nat)
    requires var r := Run(w, Empty(folders), ds);
             (id in r.active && c in r.active[id].completed) ||
             (id in r.states && r.states[id].Saved? && c in r.states[id].state.completed)
    ensures Proven(w, folders, ds, id, c)
  {
    RunIsJustified(w, folders, ds);
    hide Proven, Run;
  }

  // ---------- placing ----------

  lemma {:induction false} OnlyPlaceChangesPlaced(r: Receiver, plan: seq<Effect>)
    requires forall i :: 0 <= i < |plan| ==> !plan[i].Place?
    ensures Perform(r, plan).placed == r.placed
    decreases |plan|
  {
    if plan != [] {
      OnlyPlaceChangesPlaced(Do(r, plan[0]), plan[1..]);
    }
  }

  lemma CutEndKeepsPlaced(r: Receiver, plan: seq<Effect>, c: Cut)
    ensures PerformCut(r, plan, c).placed == Perform(r, plan[..if c.done < |plan| then c.done else |plan|]).placed
  {}

  /** Only a completion whose hashes all agree places a file, and it places the whole partial file. */
  lemma PlacingPlan(w: World, r: Receiver, m: Message, c: Cut)
    requires HandleCut(w, r, m, c).placed != r.placed
    ensures m.Complete? && m.id in r.partials && CurrentState(r, m.id).Some?
    ensures w.hash(r.partials[m.id]) == m.hash == CurrentState(r, m.id).value.hash
    ensures HandleCut(w, r, m, c).placed == r.placed[DestOf(r, CurrentState(r, m.id).value) := r.partials[m.id]]
  {
    var plan := Plan(w, r, m).0;
    var k := if c.done < |plan| then c.done else |plan|;
    CutEndKeepsPlaced(r, plan, c);
    hide Perform, PerformCut;
    if k < 2 || !m.Complete? {
      OnlyPlaceChangesPlaced(r, plan[..k]);
    } else if k == 2 {
      assert plan[..k] == [plan[0], plan[1]];
      PerformTwo(r, plan[0], plan[1]);
    } else {
      assert plan[..k] == [plan[0], plan[1], plan[2]];
      PerformThree(r, plan[0], plan[1], plan[2]);
    }
  }

  /** Where an init asks its file to go. */
  function DestFor(w: World, folders: set<string>, m: Message): (dest: Dest)
    requires m.Init? && w.clean(m.name).Some?
  {
    Dest(if m.folder.Some? && m.folder.value in folders then m.folder else None, w.clean(m.name).value)
  }

  /** Some delivered init announced this content for this destination. */
  ghost predicate Sought(w: World, folders: set<string>, ds: seq<Delivery>, id: string, hash: string, dest: Dest) {
    exists i :: 0 <= i < |ds| && ds[i].m.Init? && ds[i].m.id == id && ds[i].m.hash == hash &&
                w.clean(ds[i].m.name).Some? && dest == DestFor(w, folders, ds[i].m)
  }

  lemma {:induction false} FoldersStay(r: Receiver, plan: seq<Effect>)
    ensures Perform(r, plan).folders == r.folders
    decreases |plan|
  {
    if plan != [] {
      FoldersStay(Do(r, plan[0]), plan[1..]);
    }
  }

  lemma {:induction false} RunKeepsFolders(w: World, folders: set<string>, ds: seq<Delivery>)
    ensures Run(w, Empty(folders), ds).folders == folders
  {
    hide Plan, Perform;
    if ds != [] {
      var n := |ds| - 1;
      var r := Run(w, Empty(folders), ds[..n]);
      RunKeepsFolders(w, folders, ds[..n]);
      var plan := Plan(w, r, ds[n].m).0;
      FoldersStay(r, plan[..if ds[n].c.done < |plan| then ds[n].c.done else |plan|]);
    }
  }

  lemma CurrentIsSought(w: World, folders: set<string>, ds: seq<Delivery>, r: Receiver, id: string)
    requires AllJustified(w, folders, ds, r) && CurrentState(r, id).Some? && r.folders == folders
    ensures var st := CurrentState(r, id).value; Sought(w, folders, ds, id, st.hash, DestOf(r, st))
  {
    hide Proven;
    var st := CurrentState(r, id).value;
    assert Justified(w, folders, ds, id, st);
    var i :| 0 <= i < |ds| && Announces(w, ds[i].m, id, st);
    assert DestOf(r, st) == DestFor(w, folders, ds[i].m);
  }

  /**
   A file reaches a destination only whole, with the completing hash, where an init of its transfer asked for it,
   and that init announced this very content.
   */
  lemma PlacedFilesAreVerified(w: World, folders: set<string>, ds: seq<Delivery>, d: Delivery, dest: Dest)
    requires var r, r' := Run(w, Empty(folders), ds), Run(w, Empty(folders), ds + [d]);
             dest in r'.placed && (dest !in r.placed || r.placed[dest] != r'.placed[dest])
    ensures var bytes := Run(w, Empty(folders), ds + [d]).placed[dest];
            d.m.Complete? && d.m.hash == w.hash(bytes) && Sought(w, folders, ds, d.m.id, w.hash(bytes), dest)
  {
    hide AllJustified, Sought, HandleCut, CurrentState;
    assert (ds + [d])[..|ds|] == ds;
    var r := Run(w, Empty(folders), ds);
    RunIsJustified(w, folders, ds);
    RunKeepsFolders(w, folders, ds);
    PlacingPlan(w, r, d.m, d.c);
    CurrentIsSought(w, folders, ds, r, d.m.id);
  }

  // ---------- which init decides where the file goes ----------

  /** The state a transfer goes on with, in memory and on disk, has this destination. */
  predicate BoundFor(r: Receiver, id: string, folder: Option<string>, name: string) {
    (id in r.active ==> r.active[id].folder == folder && r.active[id].fileName == name) &&
    (id in r.states && r.states[id].Saved? ==>
       r.states[id].state.folder == folder && r.states[id].state.fileName == name)
  }

  predicate SameBound(x: Effect, id: string, folder: Option<string>, name: string) {
    match x
    case SaveState(state) => state.id == id ==> state.folder == folder && state.fileName == name
    case Activate(other, state) => other == id ==> state.folder == folder && state.fileName == name
    case _ => true
  }

  lemma {:induction false} PlanKeepsBound(r: Receiver, plan: seq<Effect>, id: string, folder: Option<string>,
                                          name: string)
    requires BoundFor(r, id, folder, name) && forall i :: 0 <= i < |plan| ==> SameBound(plan[i], id, folder, name)
    ensures BoundFor(Perform(r, plan), id, folder, name)
    decreases |plan|
  {
    if plan != [] {
      PlanKeepsBound(Do(r, plan[0]), plan[1..], id, folder, name);
    }
  }

  lemma CutKeepsBound(r: Receiver, plan: seq<Effect>, c: Cut, id: string, folder: Option<string>, name: string)
    requires BoundFor(r, id, folder, name) && forall i :: 0 <= i < |plan| ==> SameBound(plan[i], id, folder, name)
    ensures BoundFor(PerformCut(r, plan, c), id, folder, name)
  {
    hide Overwrite, Resized, Perform;
    PlanKeepsBound(r, plan[..if c.done < |plan| then c.done else |plan|], id, folder, name);
  }

  /** Nothing but an init or a completion of its own changes where a transfer is bound for. */
  lemma {:induction false} RestKeepsBound(w: World, folders: set<string>, ds: seq<Delivery>, n: nat, id: string,
                                          folder: Option<string>, name: string)
    requires n <= |ds| && BoundFor(Run(w, Empty(folders), ds[..n]), id, folder, name)
    requires forall i :: n <= i < |ds| && ds[i].m.id == id ==> ds[i].m.Chunk?
    ensures BoundFor(Run(w, Empty(folders), ds), id, folder, name)
    decreases |ds| - n
  {
    hide BoundFor, Plan, PerformCut;
    if n == |ds| {
      assert ds[..n] == ds;
    } else {
      var front, last := ds[..|ds| - 1], ds[|ds| - 1];
      assert front[..n] == ds[..n];
      RestKeepsBound(w, folders, front, n, id, folder, name);
      var r := Run(w, Empty(folders), front);
      RunIsJustified(w, folders, front);
      PlanIsBound(w, folders, front, r, last.m, id, folder, name);
      CutKeepsBound(r, Plan(w, r, last.m).0, last.c, id, folder, name);
    }
  }

  lemma PlanIsBound(w: World, folders: set<string>, ds: seq<Delivery>, r: Receiver, m: Message, id: string,
                    folder: Option<string>, name: string)
    requires AllJustified(w, folders, ds, r) && BoundFor(r, id, folder, name) && (m.id == id ==> m.Chunk?)
    ensures var plan := Plan(w, r, m).0; forall i :: 0 <= i < |plan| ==> SameBound(plan[i], id, folder, name)
  {
    hide Announced, Proven;
  }

  /** The init finds a readable checkpoint of the same content. */
  predicate Resumes(r: Receiver, m: Message)
    requires m.Init?
  {
    m.id in r.states && r.states[m.id].Saved? && r.states[m.id].state.hash == m.hash &&
      r.states[m.id].state.size == m.size
  }

  lemma InitBinds(w: World, r: Receiver, m: Message, c: Cut)
    requires m.Init? && w.clean(m.name).Some? && 4 <= c.done &&
             (m.id in r.states && r.states[m.id].Saved? ==> r.states[m.id].state.id == m.id)
    ensures var st := ResumeState(r, m, w.clean(m.name).value);
            BoundFor(HandleCut(w, r, m, c), m.id, st.folder, st.fileName)
  {
    var plan := Plan(w, r, m).0;
    var st := ResumeState(r, m, w.clean(m.name).value);
    assert |plan| <= 4 && plan[..|plan|] == plan;
    var head, tail := plan[..|plan| - 2], [SaveState(st), Activate(m.id, st)];
    assert plan == head + tail;
    PerformAppend(r, head, tail);
    PerformTwo(Perform(r, head), tail[0], tail[1]);
    hide Perform;
  }

  /**
   A completed file goes where the latest init of its transfer asked, exactly if that init found no checkpoint to
   resume or one with this destination. Otherwise it goes where the checkpoint says.
   */
  lemma LatestInitDecidesIff(w: World, folders: set<string>, ds: seq<Delivery>, n: nat, d: Delivery, dest: Dest)
    requires n < |ds| && ds[n].m.Init? && w.clean(ds[n].m.name).Some? && 4 <= ds[n].c.done
    requires forall i :: n < i < |ds| && ds[i].m.id == ds[n].m.id ==> ds[i].m.Chunk?
    requires d.m.id == ds[n].m.id
    requires var r, r' := Run(w, Empty(folders), ds), Run(w, Empty(folders), ds + [d]);
             dest in r'.placed && (dest !in r.placed || r.placed[dest] != r'.placed[dest])
    ensures var r, m := Run(w, Empty(folders), ds[..n]), ds[n].m;
            dest == DestFor(w, folders, m) <==>
              !Resumes(r, m) || DestOf(r, r.states[m.id].state) == DestFor(w, folders, m)
  {
    hide AllJustified, HandleCut, Run;
    var m := ds[n].m;
    var before, r := Run(w, Empty(folders), ds[..n]), Run(w, Empty(folders), ds);
    var st := ResumeState(before, m, w.clean(m.name).value);
    RunStep(w, folders, ds, n);
    RunIsJustified(w, folders, ds[..n]);
    SavedIsKeyed(w, folders, ds[..n], before, m.id);
    InitBinds(w, before, m, ds[n].c);
    RestKeepsBound(w, folders, ds, n + 1, m.id, st.folder, st.fileName);
    RunStep(w, folders, ds + [d], |ds|);
    assert (ds + [d])[..|ds|] == ds && (ds + [d])[..|ds| + 1] == ds + [d];
    PlacingPlan(w, r, d.m, d.c);
    RunKeepsFolders(w, folders, ds[..n]);
    RunKeepsFolders(w, folders, ds);
    assert dest == DestOf(before, st);
  }

  lemma RunStep(w: World, folders: set<string>, ds: seq<Delivery>, n: nat)
    requires n < |ds|
    ensures Run(w, Empty(folders), ds[..n + 1]) == HandleCut(w, Run(w, Empty(folders), ds[..n]), ds[n].m, ds[n].c)
  {
    assert ds[..n + 1][..n] == ds[..n];
  }

  lemma SavedIsKeyed(w: World, folders: set<string>, ds: seq<Delivery>, r: Receiver, id: string)
    requires AllJustified(w, folders, ds, r)
    ensures id in r.states && r.states[id].Saved? ==> r.states[id].state.id == id
  {}
}
