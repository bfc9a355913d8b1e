/**
 The one interruption resuming does not survive: after the file was moved to its destination and before its
 checkpoint was removed (receiver.rs lines 225-229). And the exact condition under which an attempt succeeds.
 */
module Gap {
  import opened Outcomes
  import opened Codec
  import opened Tiling
  import opened Transfer
  import opened Resume

  function Zeros(n: nat): (bytes: seq<Byte>) {
    Resized([], n)
  }

  function UpTo(n: nat): (r: set<nat>)
    ensures forall c: nat :: c in r <==> c < n
  {
    if n == 0 then {} else UpTo(n - 1) + {n - 1}
  }

  function AllChunks(s: Source): (chunks: set<nat>)
    requires 0 < s.chunk
  {
    UpTo(Count(s))
  }

  /** The checkpoint claims every chunk, and the partial file is gone or blank. */
  ghost predicate Poisoned(w: World, s: Source, r: Receiver)
    requires Sendable(w, s)
  {
    Keyed(r) && s.id in r.states && r.states[s.id].Saved? &&
    r.states[s.id].state.hash == w.hash(s.bytes) && r.states[s.id].state.size == |s.bytes| &&
    r.states[s.id].state.completed == AllChunks(s) &&
    (s.id in r.partials ==> r.partials[s.id] == Zeros(|s.bytes|))
  }

  /** A crash in the gap leaves a poisoned checkpoint behind a correctly placed file. */
  lemma CrashInGapPoisons(w: World, s: Source, r: Receiver, dies: bool)
    requires Sendable(w, s) && Keyed(r) && s.id in r.partials && r.partials[s.id] == s.bytes
    requires s.id in r.active && r.active[s.id].hash == w.hash(s.bytes) && r.active[s.id].size == |s.bytes|
    requires r.active[s.id].completed == AllChunks(s) && s.id in r.states && r.states[s.id] == Saved(r.active[s.id])
    ensures Poisoned(w, s, HandleCut(w, r, CompleteOf(w, s), Cut(2, None, dies)))
    ensures HandleCut(w, r, CompleteOf(w, s), Cut(2, None, dies)).placed ==
              r.placed[DestOf(r, r.active[s.id]) := s.bytes]
  {
    var plan := Plan(w, r, CompleteOf(w, s)).0;
    assert plan[..2] == [plan[0], plan[1]];
    PerformTwo(r, plan[0], plan[1]);
  }

  lemma {:induction false} AllSkipped(w: World, s: Source, r: Receiver, i: nat)
    requires Sendable(w, s) && i <= Count(s)
    ensures SendFrom(w, s, r, AllChunks(s), i) == Attempt(r, true, 0, Count(s) - i)
    decreases Count(s) - i
  {
    if i < Count(s) {
      AllSkipped(w, s, r, i + 1);
    }
  }

  /** From then on every attempt to send the file fails and leaves things as they are, unless the file is all zeros. */
  lemma PoisonedNeverRecovers(w: World, s: Source, r: Receiver)
    requires Sendable(w, s) && Poisoned(w, s, r) && w.hash(Zeros(|s.bytes|)) != w.hash(s.bytes)
    ensures var a := SendFile(w, s, r);
            !a.ok && a.r.placed == r.placed && Poisoned(w, s, a.r)
  {
    InitShape(w, s, r);
    var begun := Handle(w, r, InitOf(w, s));
    AllSkipped(w, s, begun, 0);
    var plan := Plan(w, begun, CompleteOf(w, s)).0;
    assert plan == [Deactivate(s.id)];
    PerformOne(begun, Deactivate(s.id));
  }

  // ---------- exactly when an attempt succeeds ----------

  /** The partial file the chunks of an attempt are written into. */
  function FileAtStart(s: Source, r: Receiver): (file: seq<Byte>) {
    if s.id in r.partials then r.partials[s.id] else Zeros(|s.bytes|)
  }

  function Checkpointed(w: World, s: Source, r: Receiver): (claimed: set<nat>)
    requires Sendable(w, s)
  {
    ResumeState(r, InitOf(w, s), w.clean(s.name).value).completed
  }

  /** How long the file gets when the chunks from `i` on that are not claimed are written. */
  function Reach(s: Source, claimed: set<nat>, i: nat, length: nat): (reach: nat)
    requires 0 < s.chunk && Countable(|s.bytes|, s.chunk) && i <= Count(s)
    ensures length <= reach
    decreases Count(s) - i
  {
    if i == Count(s) then length
    else if i in claimed then Reach(s, claimed, i + 1, length)
    else
      var end := OffsetOf(s.chunk, i) + |DataOf(s, i)|;
      Reach(s, claimed, i + 1, if length < end then end else length)
  }

  /** The file an attempt starts from, with room for the chunks it will write. */
  function FileWithRoom(w: World, s: Source, r: Receiver): (file: seq<Byte>)
    requires Sendable(w, s)
  {
    Resized(FileAtStart(s, r), Reach(s, Checkpointed(w, s, r), 0, |FileAtStart(s, r)|))
  }

  /** The chunk is on disk as it was, wherever the file reaches. */
  ghost predicate Kept(s: Source, before: seq<Byte>, after: seq<Byte>, c: nat)
    requires 0 < s.chunk
  {
    forall p :: 0 <= p < |s.bytes| && p < |after| && InChunk(s, c, p) ==> after[p] == ByteAt(before, p)
  }

  predicate InChunk(s: Source, c: nat, p: int)
    requires 0 < s.chunk
  {
    OffsetOf(s.chunk, c) <= p < OffsetOf(s.chunk, c) + LengthOf(|s.bytes|, s.chunk, c)
  }

  lemma ChunksDisjoint(s: Source, i: nat, c: nat, p: int)
    requires 0 < s.chunk && Countable(|s.bytes|, s.chunk) && i < Count(s) && c < Count(s) && i != c && InChunk(s, c, p)
    ensures !InChunk(s, i, p)
  {
    hide OffsetOf, LengthOf;
    if i < c {
      Disjoint(|s.bytes|, s.chunk, i, c);
    } else {
      Disjoint(|s.bytes|, s.chunk, c, i);
    }
  }

  lemma WriteKeepsOthers(s: Source, before: seq<Byte>, after: seq<Byte>, i: nat, c: nat)
    requires 0 < s.chunk && Countable(|s.bytes|, s.chunk) && i < Count(s) && c < Count(s) && i != c
    requires Kept(s, Overwrite(before, OffsetOf(s.chunk, i), DataOf(s, i)), after, c)
    ensures Kept(s, before, after, c)
  {
    OverwriteAt(before, OffsetOf(s.chunk, i), DataOf(s, i));
    hide Overwrite;
    forall p | 0 <= p < |s.bytes| && p < |after| && InChunk(s, c, p) ensures after[p] == ByteAt(before, p) {
      ChunksDisjoint(s, i, c, p);
    }
  }

  lemma WrittenAndKeptIsOk(s: Source, before: seq<Byte>, after: seq<Byte>, i: nat)
    requires 0 < s.chunk && Countable(|s.bytes|, s.chunk) && i < Count(s)
    requires var mid := Overwrite(before, OffsetOf(s.chunk, i), DataOf(s, i));
             Kept(s, mid, after, i) && |mid| <= |after|
    ensures ChunkOk(s, after, i)
  {
    var mid := Overwrite(before, OffsetOf(s.chunk, i), DataOf(s, i));
    WrittenChunkIsOk(s, before, i);
    hide Overwrite, OffsetOf, LengthOf, Count;
    forall p | 0 <= p < |s.bytes| && InChunk(s, i, p) ensures RightAt(s.bytes, after, p) {
      assert RightAt(s.bytes, mid, p);
    }
  }

  /** What the chunk loop leaves on disk: the chunks it wrote are right, and the others are as they were. */
  ghost predicate LoopLeaves(s: Source, before: seq<Byte>, after: seq<Byte>, claimed: set<nat>, i: nat)
    requires 0 < s.chunk && Countable(|s.bytes|, s.chunk) && i <= Count(s)
  {
    |after| == Reach(s, claimed, i, |before|) && (|before| <= |s.bytes| ==> |after| <= |s.bytes|) &&
    forall c: nat :: c < Count(s) ==> if c < i || c in claimed then Kept(s, before, after, c) else ChunkOk(s, after, c)
  }

  lemma LoopStepLeaves(s: Source, before: seq<Byte>, after: seq<Byte>, claimed: set<nat>, i: nat)
    requires 0 < s.chunk && Countable(|s.bytes|, s.chunk) && i < Count(s) && i !in claimed
    requires LoopLeaves(s, Overwrite(before, OffsetOf(s.chunk, i), DataOf(s, i)), after, claimed, i + 1)
    ensures LoopLeaves(s, before, after, claimed, i)
  {
    var mid := Overwrite(before, OffsetOf(s.chunk, i), DataOf(s, i));
    OverwriteAt(before, OffsetOf(s.chunk, i), DataOf(s, i));
    TileInside(|s.bytes|, s.chunk, i);
    ChunkStarts(s, i);
    hide Overwrite, OffsetOf, LengthOf, Kept, ChunkOk;
    WrittenAndKeptIsOk(s, before, after, i);
    forall c: nat | c < Count(s) && (c < i || c in claimed) ensures Kept(s, before, after, c) {
      WriteKeepsOthers(s, before, after, i, c);
    }
  }

  /** Only the chunk of an empty file is empty. */
  lemma ChunkStarts(s: Source, i: nat)
    requires 0 < s.chunk && Countable(|s.bytes|, s.chunk) && i < Count(s)
    ensures DataOf(s, i) == [] ==> OffsetOf(s.chunk, i) == 0
  {
    ExactTiling(|s.bytes|, s.chunk, i);
  }

  lemma NothingLeftLeaves(s: Source, file: seq<Byte>, claimed: set<nat>)
    requires 0 < s.chunk && Countable(|s.bytes|, s.chunk)
    ensures LoopLeaves(s, file, file, claimed, Count(s))
  {}

  lemma SkipLeaves(s: Source, before: seq<Byte>, after: seq<Byte>, claimed: set<nat>, i: nat)
    requires 0 < s.chunk && Countable(|s.bytes|, s.chunk) && i < Count(s) && i in claimed
    requires LoopLeaves(s, before, after, claimed, i + 1)
    ensures LoopLeaves(s, before, after, claimed, i)
  {
    hide Kept, ChunkOk, Count;
  }

  lemma {:induction false} LoopEnds(w: World, s: Source, r: Receiver, claimed: set<nat>, i: nat)
    requires Sendable(w, s) && i <= Count(s) && s.id in r.partials && s.id in r.active && r.active[s.id].id == s.id
    ensures var a := SendFrom(w, s, r, claimed, i);
            && a.ok && s.id in a.r.partials && s.id in a.r.active
            && LoopLeaves(s, r.partials[s.id], a.r.partials[s.id], claimed, i)
            && a.r.active[s.id].(completed := {}) == r.active[s.id].(completed := {})
            && a.r.placed == r.placed && a.r.folders == r.folders
    decreases Count(s) - i
  {
    hide LoopLeaves, Plan, Handle, Count, OffsetOf, Overwrite;
    if i == Count(s) {
      NothingLeftLeaves(s, r.partials[s.id], claimed);
    } else if i in claimed {
      LoopEnds(w, s, r, claimed, i + 1);
      SkipLeaves(s, r.partials[s.id], SendFrom(w, s, r, claimed, i + 1).r.partials[s.id], claimed, i);
    } else {
      ChunkShape(w, s, r, i);
      var after := Handle(w, r, ChunkOf(w, s, i));
      LoopEnds(w, s, after, claimed, i + 1);
      LoopStepLeaves(s, r.partials[s.id], SendFrom(w, s, after, claimed, i + 1).r.partials[s.id], claimed, i);
    }
  }

  lemma KeptIsOkIff(s: Source, before: seq<Byte>, after: seq<Byte>, c: nat)
    requires 0 < s.chunk && Kept(s, before, after, c) && |before| <= |after|
    ensures ChunkOk(s, after, c) <==> ChunkOk(s, Resized(before, |after|), c)
  {
    hide OffsetOf, LengthOf, Count;
    var room := Resized(before, |after|);
    forall p | 0 <= p < |s.bytes| && InChunk(s, c, p)
      ensures RightAt(s.bytes, after, p) <==> RightAt(s.bytes, room, p)
    {
    }
  }

  /** The file is whole after the loop exactly when the claimed chunks were right to begin with. */
  lemma LoopMakesTheFileIff(s: Source, before: seq<Byte>, after: seq<Byte>, claimed: set<nat>)
    requires 0 < s.chunk && Countable(|s.bytes|, s.chunk) && |before| <= |s.bytes|
    requires LoopLeaves(s, before, after, claimed, 0) && forall c :: c in claimed ==> c < Count(s)
    ensures after == s.bytes <==> forall c :: c in claimed ==> ChunkOk(s, Resized(before, |after|), c)
  {
    hide ChunkOk, Count, Resized;
    forall c | c in claimed ensures ChunkOk(s, after, c) <==> ChunkOk(s, Resized(before, |after|), c) {
      KeptIsOkIff(s, before, after, c);
    }
    if after == s.bytes {
      forall c | c in claimed ensures ChunkOk(s, after, c) {
        SourceIsOk(s, c);
      }
    } else if forall c :: c in claimed ==> ChunkOk(s, Resized(before, |after|), c) {
      AllChunksMakeTheFile(s, after);
    }
  }

  lemma SourceIsOk(s: Source, c: nat)
    requires 0 < s.chunk && c < Count(s)
    ensures ChunkOk(s, s.bytes, c)
  {}

  /** The readable checkpoint, if any, is this source's own. */
  ghost predicate OwnCheckpoint(w: World, s: Source, r: Receiver)
    requires Sendable(w, s)
  {
    var st := ResumeState(r, InitOf(w, s), w.clean(s.name).value);
    Keyed(r) && st.folder == s.folder && Some(st.fileName) == w.clean(s.name) &&
    forall c :: c in st.completed ==> c < Count(s)
  }

  lemma CompleteSucceedsIff(w: World, s: Source, r: Receiver)
    requires Sendable(w, s) && s.id in r.active && s.id in r.partials && r.active[s.id].hash == w.hash(s.bytes)
    ensures Plan(w, r, CompleteOf(w, s)).1 == CompleteAck(true) <==> w.hash(r.partials[s.id]) == w.hash(s.bytes)
  {}

  /**
   An attempt succeeds exactly when every chunk its checkpoint claims is on disk as the source has it, counting the
   room that the missing chunks will make; and then it places the source.
   */
  lemma AttemptSucceedsIff(w: World, s: Source, r: Receiver)
    requires Sendable(w, s) && OwnCheckpoint(w, s, r) && |FileAtStart(s, r)| <= |s.bytes|
    requires forall b: seq<Byte> :: w.hash(b) == w.hash(s.bytes) ==> b == s.bytes
    ensures SendFile(w, s, r).ok <==> forall c :: c in Checkpointed(w, s, r) ==> ChunkOk(s, FileWithRoom(w, s, r), c)
    ensures var a := SendFile(w, s, r);
            a.ok ==> a.sent + a.skipped == Count(s) && a.r.placed == r.placed[TargetDest(w, s, r) := s.bytes]
  {
    InitShape(w, s, r);
    hide Handle, Plan, ChunkOk, Reach, Count, Resized;
    var begun, claimed := Handle(w, r, InitOf(w, s)), Checkpointed(w, s, r);
    LoopEnds(w, s, begun, claimed, 0);
    var a := SendFrom(w, s, begun, claimed, 0);
    var before, after := FileAtStart(s, r), a.r.partials[s.id];
    assert before == begun.partials[s.id];
    LoopMakesTheFileIff(s, before, after, claimed);
    assert a.r.active[s.id].hash == w.hash(s.bytes);
    CompleteSucceedsIff(w, s, a.r);
    if after == s.bytes {
      CompleteShape(w, s, a.r);
    }
  }

  // ---------- every history, the gap included ----------

  ghost predicate Own(w: World, s: Source, st: TransferState)
    requires Sendable(w, s)
  {
    st.id == s.id && st.hash == w.hash(s.bytes) && st.size == |s.bytes| && st.folder == s.folder &&
    Some(st.fileName) == w.clean(s.name) && forall c :: c in st.completed ==> c < Count(s)
  }

  /** What survives even the gap: the transfer's records are this source's, whether or not its chunks are there. */
  ghost predicate OwnInv(w: World, s: Source, r: Receiver)
    requires Sendable(w, s)
  {
    Keyed(r) && (s.id in r.partials ==> |r.partials[s.id]| <= |s.bytes|) &&
    (s.id in r.states && r.states[s.id].Saved? ==> Own(w, s, r.states[s.id].state)) &&
    (s.id in r.active ==> Own(w, s, r.active[s.id]))
  }

  ghost predicate OwnEffect(w: World, s: Source, x: Effect)
    requires Sendable(w, s)
  {
    match x
    case SetLength(id, length) => id == s.id ==> length <= |s.bytes|
    case SaveState(state) => state.id == s.id ==> Own(w, s, state)
    case Activate(id, state) => state.id == id && (id == s.id ==> Own(w, s, state))
    case WriteBytes(id, offset, data) => id == s.id ==> offset + |data| <= |s.bytes|
    case Remember(id, index) => id == s.id ==> index < Count(s)
    case _ => true
  }

  lemma EffectKeepsOwn(w: World, s: Source, r: Receiver, x: Effect)
    requires Sendable(w, s) && OwnInv(w, s, r) && OwnEffect(w, s, x)
    ensures OwnInv(w, s, Do(r, x))
  {
    hide Overwrite, Resized, Count;
    match x
    case WriteBytes(id, offset, data) =>
      if id == s.id && id in r.partials {
        WriteBound(s, r.partials[id], offset, data);
      }
    case SetLength(id, length) =>
      if id == s.id && id in r.partials {
        ResizedLength(r.partials[id], length);
      }
    case _ =>
  }

  lemma {:induction false} PlanKeepsOwn(w: World, s: Source, r: Receiver, plan: seq<Effect>)
    requires Sendable(w, s) && OwnInv(w, s, r) && forall i :: 0 <= i < |plan| ==> OwnEffect(w, s, plan[i])
    ensures OwnInv(w, s, Perform(r, plan))
    decreases |plan|
  {
    hide OwnInv, OwnEffect, Do;
    if plan != [] {
      EffectKeepsOwn(w, s, r, plan[0]);
      PlanKeepsOwn(w, s, Do(r, plan[0]), plan[1..]);
    }
  }

  lemma TearKeepsOwn(w: World, s: Source, r: Receiver, x: Effect, n: nat)
    requires Sendable(w, s) && OwnInv(w, s, r) && OwnEffect(w, s, x)
    ensures OwnInv(w, s, Tear(r, x, n))
  {
    if x.WriteBytes? {
      EffectKeepsOwn(w, s, r, WriteBytes(x.id, x.offset, if n < |x.data| then x.data[..n] else x.data));
    }
  }

  lemma CutKeepsOwn(w: World, s: Source, r: Receiver, plan: seq<Effect>, c: Cut)
    requires Sendable(w, s) && OwnInv(w, s, r) && forall i :: 0 <= i < |plan| ==> OwnEffect(w, s, plan[i])
    ensures OwnInv(w, s, PerformCut(r, plan, c))
  {
    var n := if c.done < |plan| then c.done else |plan|;
    PlanKeepsOwn(w, s, r, plan[..n]);
    var reached := Perform(r, plan[..n]);
    hide OwnEffect, Perform, Tear, Own;
    if n < |plan| && c.torn.Some? {
      TearKeepsOwn(w, s, reached, plan[n], c.torn.value);
    }
  }

  ghost predicate OwnMessage(w: World, s: Source, m: Message)
    requires Sendable(w, s)
  {
    m.id != s.id || m == InitOf(w, s) || m == CompleteOf(w, s) || exists i: nat :: i < Count(s) && m == ChunkOf(w, s, i)
  }

  lemma PlanIsOwn(w: World, s: Source, r: Receiver, m: Message)
    requires Sendable(w, s) && OwnInv(w, s, r) && OwnMessage(w, s, m)
    ensures var plan := Plan(w, r, m).0; forall i :: 0 <= i < |plan| ==> OwnEffect(w, s, plan[i])
  {
    hide Count, OffsetOf;
  }

  lemma OwnCutKeepsOwn(w: World, s: Source, r: Receiver, m: Message, c: Cut)
    requires Sendable(w, s) && OwnInv(w, s, r) && OwnMessage(w, s, m)
    ensures OwnInv(w, s, HandleCut(w, r, m, c))
  {
    hide OwnInv, OwnMessage, OwnEffect, Plan, PerformCut;
    PlanIsOwn(w, s, r, m);
    CutKeepsOwn(w, s, r, Plan(w, r, m).0, c);
  }

  lemma HappenKeepsOwn(w: World, s: Source, r: Receiver, e: Event)
    requires Sendable(w, s) && OwnInv(w, s, r) && Possible(s, e)
    ensures OwnInv(w, s, Happen(w, s, r, e))
  {
    hide OwnInv, HandleCut, Count;
    match e
    case Begin(c) => OwnCutKeepsOwn(w, s, r, InitOf(w, s), c);
    case Send(i, c) => OwnCutKeepsOwn(w, s, r, ChunkOf(w, s, i), c);
    case Finish(c) => OwnCutKeepsOwn(w, s, r, CompleteOf(w, s), c);
    case Other(m, c) => OwnCutKeepsOwn(w, s, r, m, c);
    case Die => MemoryLossKeepsOwn(w, s, r);
  }

  lemma {:induction false} HistoryKeepsOwn(w: World, s: Source, r: Receiver, events: seq<Event>)
    requires Sendable(w, s) && OwnInv(w, s, r) && AllPossible(s, events)
    ensures OwnInv(w, s, History(w, s, r, events))
    decreases |events|
  {
    hide OwnInv, Happen;
    if events != [] {
      HappenKeepsOwn(w, s, r, events[0]);
      HistoryKeepsOwn(w, s, Happen(w, s, r, events[0]), events[1..]);
    }
  }

  lemma MemoryLossKeepsOwn(w: World, s: Source, r: Receiver)
    requires Sendable(w, s) && OwnInv(w, s, r)
    ensures OwnInv(w, s, r.(active := map[]))
  {}

  /**
   After any history whatever, crashes in the gap included, an attempt succeeds exactly when every chunk the checkpoint
   claims is there; and then it places the source. Without a crash in the gap the chunks always are there.
   */
  lemma ResumeSucceedsIff(w: World, s: Source, r: Receiver, events: seq<Event>)
    requires Sendable(w, s) && Unknown(s, r) && AllPossible(s, events)
    requires forall b: seq<Byte> :: w.hash(b) == w.hash(s.bytes) ==> b == s.bytes
    ensures var before := History(w, s, r, events);
            var a := SendFile(w, s, before);
            && (a.ok <==> forall c :: c in Checkpointed(w, s, before) ==> ChunkOk(s, FileWithRoom(w, s, before), c))
            && (a.ok ==>
                  a.sent + a.skipped == Count(s) && a.r.placed == before.placed[TargetDest(w, s, before) := s.bytes])
            && (OutsideGap(w, s, r, events) ==> a.ok)
  {
    hide ChunkOk, SendFile, Count;
    HistoryKeepsOwn(w, s, r, events);
    var before := History(w, s, r, events);
    OwnInvOwnsCheckpoint(w, s, before);
    hide History;
    AttemptSucceedsIff(w, s, before);
    if OutsideGap(w, s, r, events) {
      ResumeCompletes(w, s, r, events);
    }
  }

  lemma OwnInvOwnsCheckpoint(w: World, s: Source, r: Receiver)
    requires Sendable(w, s) && OwnInv(w, s, r)
    ensures OwnCheckpoint(w, s, r) && |FileAtStart(s, r)| <= |s.bytes|
  {
    hide Count;
  }
}
