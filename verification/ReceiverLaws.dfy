/**
 What each message does to the receiver, and what it answers, for every receiver and every message: stated of the
 files, the checkpoints, the memory and the reply (receiver.rs `handle_init`, `handle_chunk`, `handle_complete`).
 */
module ReceiverLaws {
  import opened Outcomes
  import opened Codec
  import opened Transfer

  // ---------- files ----------

  ghost predicate AllZero(file: seq<Byte>) {
    forall p :: 0 <= p < |file| ==> file[p] == 0
  }

  lemma FreshFileIsZeros(n: nat)
    ensures |Resized([], n)| == n && AllZero(Resized([], n))
  {}

  /** The data is at its place, a gap before it reads as zeros, and the rest of the file is as it was. */
  ghost predicate Written(before: seq<Byte>, after: seq<Byte>, offset: nat, data: seq<Byte>) {
    && |after| == (if data == [] || offset + |data| <= |before| then |before| else offset + |data|)
    && (forall p :: 0 <= p < |data| ==> after[offset + p] == data[p])
    && (forall p :: 0 <= p < |after| && !(offset <= p < offset + |data|) ==>
          after[p] == if p < |before| then before[p] else 0)
  }

  lemma OverwriteWrites(file: seq<Byte>, offset: nat, data: seq<Byte>)
    ensures Written(file, Overwrite(file, offset, data), offset, data)
  {
    OverwriteAt(file, offset, data);
    hide Overwrite;
  }

  /** Nothing changed, but for the memory a dying process loses. */
  predicate Unchanged(r: Receiver, after: Receiver, dies: bool) {
    after == if dies then r.(active := map[]) else r
  }

  // ---------- init ----------

  /** The checkpoint on disk is readable and of the content that the init announces. */
  predicate Resumable(r: Receiver, m: Message)
    requires m.Init?
  {
    m.id in r.states && r.states[m.id].Saved? && r.states[m.id].state.hash == m.hash &&
      r.states[m.id].state.size == m.size
  }

  /**
   An init resumes the checkpoint it finds or starts one, sees that the partial file exists, and reports the chunks.
   */
  lemma InitDoes(w: World, r: Receiver, m: Message)
    requires m.Init? && w.clean(m.name).Some? && (Resumable(r, m) ==> r.states[m.id].state.id == m.id)
    ensures var st := if Resumable(r, m) then r.states[m.id].state
                      else TransferState(m.id, m.folder, w.clean(m.name).value, m.size, m.hash, m.chunkSize, m.total,
                        {});
            var after := Handle(w, r, m);
            && Plan(w, r, m).1 == InitAck(st.completed)
            && after.active == r.active[m.id := st] && after.states == r.states[m.id := Saved(st)]
            && after.placed == r.placed && after.folders == r.folders
            && (m.id in r.partials ==> after.partials == r.partials)
            && (m.id !in r.partials ==>
                  m.id in after.partials && |after.partials[m.id]| == m.size && AllZero(after.partials[m.id]) &&
                  after.partials == r.partials[m.id := after.partials[m.id]])
  {
    hide Perform, Resized;
    FreshFileIsZeros(m.size);
    var st := ResumeState(r, m, w.clean(m.name).value);
    var plan, tail := Plan(w, r, m).0, [SaveState(st), Activate(m.id, st)];
    if m.id in r.partials {
      assert plan == tail;
      PerformTwo(r, tail[0], tail[1]);
    } else {
      var head := [CreatePartial(m.id), SetLength(m.id, m.size)];
      assert plan == head + tail;
      PerformAppend(r, head, tail);
      PerformTwo(r, head[0], head[1]);
      PerformTwo(Do(Do(r, head[0]), head[1]), tail[0], tail[1]);
    }
  }

  lemma NothingToDo(r: Receiver, c: Cut)
    ensures Perform(r, []) == r && Unchanged(r, PerformCut(r, [], c), c.dies)
  {}

  /** An init whose name is nothing once cleaned is refused and does nothing. */
  lemma NamelessInitFails(w: World, r: Receiver, m: Message, c: Cut)
    requires m.Init? && w.clean(m.name).None?
    ensures Plan(w, r, m).1 == Failed && Unchanged(r, HandleCut(w, r, m, c), c.dies)
  {
    NothingToDo(r, c);
  }

  // ---------- chunk ----------

  /** A chunk is accepted exactly if its data matches its hash and there is a partial file to write to. */
  lemma ChunkAckIff(w: World, r: Receiver, m: Message)
    requires m.Chunk?
    ensures Plan(w, r, m).1 == ChunkAck(m.index, true) <==> w.hash(m.data) == m.chunkHash && m.id in r.partials
    ensures Plan(w, r, m).1 == ChunkAck(m.index, false) <==> w.hash(m.data) != m.chunkHash
    ensures Plan(w, r, m).1 == Failed <==> w.hash(m.data) == m.chunkHash && m.id !in r.partials
  {}

  /** A chunk that is not accepted changes nothing, wherever its handler is cut. */
  lemma RefusedChunkDoesNothing(w: World, r: Receiver, m: Message, c: Cut)
    requires m.Chunk? && (w.hash(m.data) != m.chunkHash || m.id !in r.partials)
    ensures Handle(w, r, m) == r && Unchanged(r, HandleCut(w, r, m, c), c.dies)
  {
    NothingToDo(r, c);
  }

  function WithChunk(st: TransferState, index: nat): (st': TransferState) {
    st.(completed := st.completed + {index})
  }

  /** An accepted chunk is written at its place, and then checkpointed if the transfer is active. */
  lemma AcceptedChunkDoes(w: World, r: Receiver, m: Message)
    requires m.Chunk? && w.hash(m.data) == m.chunkHash && m.id in r.partials
    ensures var after := Handle(w, r, m);
            && m.id in after.partials && after.partials == r.partials[m.id := after.partials[m.id]]
            && Written(r.partials[m.id], after.partials[m.id], m.offset, m.data)
            && after.placed == r.placed && after.folders == r.folders
            && (m.id !in r.active ==> after.active == r.active && after.states == r.states)
            && (m.id in r.active ==>
                  var st := WithChunk(r.active[m.id], m.index);
                  after.active == r.active[m.id := st] && after.states == r.states[st.id := Saved(st)])
  {
    OverwriteWrites(r.partials[m.id], m.offset, m.data);
    hide Overwrite, Written, Perform;
    var plan, write := Plan(w, r, m).0, WriteBytes(m.id, m.offset, m.data);
    if m.id in r.active {
      var st := WithChunk(r.active[m.id], m.index);
      assert plan == [write, Remember(m.id, m.index), SaveState(st)];
      PerformThree(r, plan[0], plan[1], plan[2]);
    } else {
      assert plan == [write];
      PerformOne(r, write);
    }
  }

  /** Cut within the write, some first bytes are on disk and nothing is checkpointed. */
  lemma TornWrite(w: World, r: Receiver, m: Message, n: nat, dies: bool)
    requires m.Chunk? && w.hash(m.data) == m.chunkHash && m.id in r.partials
    ensures var after := HandleCut(w, r, m, Cut(0, Some(n), dies));
            && m.id in after.partials && after.partials == r.partials[m.id := after.partials[m.id]]
            && Written(r.partials[m.id], after.partials[m.id], m.offset, if n < |m.data| then m.data[..n] else m.data)
            && after.states == r.states && after.placed == r.placed && after.active == if dies then map[] else r.active
  {
    OverwriteWrites(r.partials[m.id], m.offset, if n < |m.data| then m.data[..n] else m.data);
    hide Overwrite, Written;
    assert Plan(w, r, m).0[..0] == [];
  }

  /** Cut within saving the checkpoint, the data is on disk and the checkpoint is unreadable. */
  lemma TornCheckpoint(w: World, r: Receiver, m: Message, n: nat, dies: bool)
    requires m.Chunk? && w.hash(m.data) == m.chunkHash && m.id in r.partials && m.id in r.active &&
             r.active[m.id].id == m.id
    ensures var after := HandleCut(w, r, m, Cut(2, Some(n), dies));
            && m.id in after.partials && Written(r.partials[m.id], after.partials[m.id], m.offset, m.data)
            && after.states == r.states[m.id := StateFile.Torn]
            && after.active == if dies then map[] else r.active[m.id := WithChunk(r.active[m.id], m.index)]
  {
    OverwriteWrites(r.partials[m.id], m.offset, m.data);
    hide Overwrite, Written, Perform;
    var plan := Plan(w, r, m).0;
    assert |plan| == 3 && plan[..2] == [plan[0], plan[1]];
    PerformTwo(r, plan[0], plan[1]);
  }

  /** A handler that gets through and whose process lives is the whole handler. */
  lemma UncutIsWhole(w: World, r: Receiver, m: Message, c: Cut)
    requires |Plan(w, r, m).0| <= c.done && !c.dies
    ensures HandleCut(w, r, m, c) == Handle(w, r, m)
  {
    var plan := Plan(w, r, m).0;
    assert plan[..|plan|] == plan;
  }

  // ---------- complete ----------

  /** The state a completion works on: the one in memory, or else the readable one on disk. */
  predicate WorksOn(r: Receiver, id: string, st: TransferState) {
    if id in r.active then r.active[id] == st else id in r.states && r.states[id] == Saved(st)
  }

  /** A completion places the whole partial file exactly if its hash is the completing one and the announced one. */
  lemma CompleteDoes(w: World, r: Receiver, m: Message, st: TransferState)
    requires m.Complete? && WorksOn(r, m.id, st)
    ensures var after := Handle(w, r, m);
            var agrees := m.id in r.partials && w.hash(r.partials[m.id]) == m.hash == st.hash;
            && after.active == r.active - {m.id} && after.folders == r.folders
            && Plan(w, r, m).1 == (if m.id !in r.partials then Failed else CompleteAck(agrees))
            && (!agrees ==> after.partials == r.partials && after.states == r.states && after.placed == r.placed)
            && (agrees ==>
                  var folder := if st.folder.Some? && st.folder.value in r.folders then st.folder else None;
                  after.partials == r.partials - {m.id} && after.states == r.states - {m.id} &&
                  after.placed == r.placed[Dest(folder, st.fileName) := r.partials[m.id]])
  {
    hide Perform;
    var plan := Plan(w, r, m).0;
    assert CurrentState(r, m.id) == Some(st);
    if |plan| == 3 {
      assert plan == [plan[0], plan[1], plan[2]];
      PerformThree(r, plan[0], plan[1], plan[2]);
    } else {
      assert plan == [Deactivate(m.id)];
      PerformOne(r, plan[0]);
    }
  }

  /** A completion of an unknown transfer fails and does nothing. */
  lemma UnknownCompleteFails(w: World, r: Receiver, m: Message, c: Cut)
    requires m.Complete? && !exists st :: WorksOn(r, m.id, st)
    ensures Plan(w, r, m).1 == Failed && Unchanged(r, HandleCut(w, r, m, c), c.dies)
  {
    if m.id in r.active {
      assert WorksOn(r, m.id, r.active[m.id]);
    } else if m.id in r.states && r.states[m.id].Saved? {
      assert WorksOn(r, m.id, r.states[m.id].state);
    }
    NothingToDo(r, c);
  }
}
