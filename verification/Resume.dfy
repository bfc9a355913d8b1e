/**
 Resuming an interrupted transfer (receiver.rs, sender.rs, state.rs): one source, one transfer id, a fixed
 chunk size, any number of attempts cut anywhere, and foreign transfers under other ids in between.
 */
module Resume {
  import opened Outcomes
  import opened Codec
  import opened Tiling
  import opened Transfer

  datatype Source = Source(id: string, folder: Option<string>, name: string, bytes: seq<Byte>, chunk: nat)

  predicate Sendable(w: World, s: Source) {
    0 < s.chunk && Countable(|s.bytes|, s.chunk) && w.clean(s.name).Some?
  }

  function Count(s: Source): (count: nat)
    requires 0 < s.chunk
  {
    TotalChunks(|s.bytes|, s.chunk)
  }

  function InitOf(w: World, s: Source): (m: Message)
    requires 0 < s.chunk
    ensures m.Init? && m.id == s.id
  {
    Init(s.id, s.folder, s.name, |s.bytes|, w.hash(s.bytes), s.chunk, Count(s))
  }

  function DataOf(s: Source, i: nat): (data: seq<Byte>)
    requires 0 < s.chunk && Countable(|s.bytes|, s.chunk) && i < Count(s)
    ensures OffsetOf(s.chunk, i) + |data| <= |s.bytes| && |data| == LengthOf(|s.bytes|, s.chunk, i)
    ensures data == s.bytes[OffsetOf(s.chunk, i)..OffsetOf(s.chunk, i) + |data|]
  {
    TileInside(|s.bytes|, s.chunk, i);
    s.bytes[OffsetOf(s.chunk, i)..OffsetOf(s.chunk, i) + LengthOf(|s.bytes|, s.chunk, i)]
  }

  function ChunkOf(w: World, s: Source, i: nat): (m: Message)
    requires 0 < s.chunk && Countable(|s.bytes|, s.chunk) && i < Count(s)
    ensures m.Chunk? && m.id == s.id
  {
    Chunk(s.id, i, OffsetOf(s.chunk, i), DataOf(s, i), w.hash(DataOf(s, i)))
  }

  function CompleteOf(w: World, s: Source): (m: Message)
    ensures m.Complete? && m.id == s.id
  {
    Complete(s.id, w.hash(s.bytes))
  }

  /** What the sender announces: the source's size and hash, and as many chunks as cover it. */
  lemma InitAnnounces(w: World, s: Source)
    requires Sendable(w, s)
    ensures var m := InitOf(w, s);
            && m.folder == s.folder && m.name == s.name && m.size == |s.bytes| && m.hash == w.hash(s.bytes)
            && m.chunkSize == s.chunk && 0 < m.total
            && (if s.bytes == [] then m.total == 1 else (m.total - 1) * s.chunk < |s.bytes| <= m.total * s.chunk)
    ensures CompleteOf(w, s).hash == w.hash(s.bytes)
  {
    if s.bytes != [] {
      CeilingBounds(|s.bytes|, s.chunk);
    }
  }

  /** What a chunk message carries: the source's bytes at its offset, and their hash. */
  lemma ChunkCarries(w: World, s: Source, i: nat)
    requires Sendable(w, s) && i < Count(s)
    ensures var m := ChunkOf(w, s, i);
            && m.index == i && m.offset == i * s.chunk && m.offset + |m.data| <= |s.bytes|
            && m.data == s.bytes[m.offset..m.offset + |m.data|] && m.chunkHash == w.hash(m.data)
            && (m.offset + |m.data| < |s.bytes| ==> |m.data| == s.chunk)
  {
    ExactTiling(|s.bytes|, s.chunk, i);
  }

  // ---------- one attempt ----------

  datatype Attempt = Attempt(r: Receiver, ok: bool, sent: nat, skipped: nat)

  /** The chunk loop from chunk `i` on. */
  function SendFrom(w: World, s: Source, r: Receiver, existing: set<nat>, i: nat): (a: Attempt)
    requires Sendable(w, s) && i <= Count(s)
    ensures a.ok ==> a.sent + a.skipped == Count(s) - i
    decreases Count(s) - i
  {
    if i == Count(s) then Attempt(r, true, 0, 0)
    else if i in existing then
      var rest := SendFrom(w, s, r, existing, i + 1);
      rest.(skipped := rest.skipped + 1)
    else
      var m := ChunkOf(w, s, i);
      if Plan(w, r, m).1 != ChunkAck(i, true) then Attempt(Handle(w, r, m), false, 0, 0)
      else
        var rest := SendFrom(w, s, Handle(w, r, m), existing, i + 1);
        rest.(sent := rest.sent + 1)
  }

  function SendFile(w: World, s: Source, r: Receiver): (a: Attempt)
    requires Sendable(w, s)
  {
    var begun := Handle(w, r, InitOf(w, s));
    match Plan(w, r, InitOf(w, s)).1
    case InitAck(existing) =>
      var a := SendFrom(w, s, begun, existing, 0);
      if !a.ok then a
      else
        Attempt(Handle(w, a.r, CompleteOf(w, s)), Plan(w, a.r, CompleteOf(w, s)).1 == CompleteAck(true),
                a.sent, a.skipped)
    case _ => Attempt(begun, false, 0, 0)
  }

  /** A chunk that is not acknowledged ends the attempt, after all chunks before it and nothing after it. */
  lemma BadAckEndsAttempt(w: World, s: Source, r: Receiver, existing: set<nat>, i: nat)
    requires Sendable(w, s) && i < Count(s)
    ensures i in existing ==>
              SendFrom(w, s, r, existing, i).r == SendFrom(w, s, r, existing, i + 1).r &&
              SendFrom(w, s, r, existing, i).ok == SendFrom(w, s, r, existing, i + 1).ok
    ensures i !in existing && Plan(w, r, ChunkOf(w, s, i)).1 != ChunkAck(i, true) ==>
              !SendFrom(w, s, r, existing, i).ok && SendFrom(w, s, r, existing, i).r == Handle(w, r, ChunkOf(w, s, i))
    ensures i !in existing && Plan(w, r, ChunkOf(w, s, i)).1 == ChunkAck(i, true) ==>
              SendFrom(w, s, r, existing, i).r == SendFrom(w, s, Handle(w, r, ChunkOf(w, s, i)), existing, i + 1).r
  {
    hide Plan, Handle, ChunkOf, Count;
  }

  /** An attempt goes on to the chunks only if the init is acknowledged, and completes only if they all went through. */
  lemma AttemptStages(w: World, s: Source, r: Receiver)
    requires Sendable(w, s)
    ensures var a, begun, reply := SendFile(w, s, r), Handle(w, r, InitOf(w, s)), Plan(w, r, InitOf(w, s)).1;
            && (!reply.InitAck? ==> !a.ok && a.r == begun)
            && (reply.InitAck? ==>
                  var sent := SendFrom(w, s, begun, reply.existing, 0);
                  && a.sent == sent.sent && a.skipped == sent.skipped
                  && (!sent.ok ==> !a.ok && a.r == sent.r)
                  && (sent.ok ==> a.r == Handle(w, sent.r, CompleteOf(w, s)) &&
                                  (a.ok <==> Plan(w, sent.r, CompleteOf(w, s)).1 == CompleteAck(true))))
  {
    hide Plan, Handle, SendFrom, InitOf, CompleteOf;
  }

  // ---------- the invariant ----------

  /** The positions from `a` up to `b` are on disk as the source has them. */
  ghost predicate Right(bytes: seq<Byte>, file: seq<Byte>, a: int, b: int) {
    forall p :: 0 <= p < |bytes| && a <= p < b ==> RightAt(bytes, file, p)
  }

  predicate RightAt(bytes: seq<Byte>, file: seq<Byte>, p: nat) {
    p < |bytes| && p < |file| && file[p] == bytes[p]
  }

  /** The chunk's byte range on disk already equals the source. */
  ghost predicate ChunkOk(s: Source, file: seq<Byte>, c: nat)
    requires 0 < s.chunk
  {
    c < Count(s) &&
    Right(s.bytes, file, OffsetOf(s.chunk, c), OffsetOf(s.chunk, c) + LengthOf(|s.bytes|, s.chunk, c))
  }

  ghost predicate StateOk(w: World, s: Source, partials: map<string, seq<Byte>>, st: TransferState)
    requires Sendable(w, s)
  {
    st.id == s.id && st.hash == w.hash(s.bytes) && st.size == |s.bytes| && st.folder == s.folder &&
    Some(st.fileName) == w.clean(s.name) &&
    forall c :: c in st.completed ==> s.id in partials && ChunkOk(s, partials[s.id], c)
  }

  ghost predicate Keyed(r: Receiver) {
    (forall id :: id in r.states && r.states[id].Saved? ==> r.states[id].state.id == id) &&
    (forall id :: id in r.active ==> r.active[id].id == id)
  }

  /** Every checkpointed chunk, in memory or on disk, is on disk as the source has it. */
  ghost predicate ResumeInv(w: World, s: Source, r: Receiver)
    requires Sendable(w, s)
  {
    Keyed(r) &&
    (s.id in r.partials ==> |r.partials[s.id]| <= |s.bytes|) &&
    (s.id in r.states && r.states[s.id].Saved? ==> StateOk(w, s, r.partials, r.states[s.id].state)) &&
    (s.id in r.active ==> s.id in r.partials && StateOk(w, s, r.partials, r.active[s.id]))
  }

  function SubjectOf(x: Effect): (id: string) {
    match x
    case SaveState(state) => state.id
    case CreatePartial(id) => id
    case SetLength(id, _) => id
    case Activate(id, _) => id
    case WriteBytes(id, _, _) => id
    case Remember(id, _) => id
    case Deactivate(id) => id
    case Place(id, _) => id
    case DropState(id) => id
  }

  /** An effect that cannot break the invariant: foreign, or true to the source. */
  ghost predicate Legit(w: World, s: Source, r: Receiver, x: Effect)
    requires Sendable(w, s)
  {
    match x
    case CreatePartial(id) => id == s.id ==> id !in r.partials
    case SetLength(id, length) => id == s.id ==> length == |s.bytes|
    case SaveState(state) => state.id == s.id ==> StateOk(w, s, r.partials, state)
    case Activate(id, state) => state.id == id &&
      (id == s.id ==> s.id in r.partials && StateOk(w, s, r.partials, state))
    case WriteBytes(id, offset, data) =>
      id == s.id ==> offset + |data| <= |s.bytes| && data == s.bytes[offset..offset + |data|]
    case Remember(id, index) => id == s.id && id in r.active ==> id in r.partials && ChunkOk(s, r.partials[id], index)
    case Place(id, _) => id != s.id
    case _ => true
  }

  // ---------- effects on the partial file ----------

  /** Writing true bytes at their true place never spoils a range that is already right. */
  lemma WriteKeepsRight(bytes: seq<Byte>, file: seq<Byte>, offset: nat, data: seq<Byte>, a: int, b: int)
    requires Right(bytes, file, a, b)
    requires offset + |data| <= |bytes| && data == bytes[offset..offset + |data|]
    ensures Right(bytes, Overwrite(file, offset, data), a, b)
  {
    var after := Overwrite(file, offset, data);
    OverwriteAt(file, offset, data);
    hide Overwrite;
    forall p | 0 <= p < |bytes| && a <= p < b ensures RightAt(bytes, after, p) {
      assert RightAt(bytes, file, p);
      if offset <= p < offset + |data| {
        assert after[offset + (p - offset)] == data[p - offset];
      }
    }
  }

  lemma WriteMakesRight(bytes: seq<Byte>, file: seq<Byte>, offset: nat, data: seq<Byte>)
    requires offset + |data| <= |bytes| && data == bytes[offset..offset + |data|]
    ensures Right(bytes, Overwrite(file, offset, data), offset, offset + |data|)
  {
    OverwriteAt(file, offset, data);
    var after := Overwrite(file, offset, data);
    hide Overwrite;
    forall p | 0 <= p < |bytes| && offset <= p < offset + |data| ensures RightAt(bytes, after, p) {
      assert after[offset + (p - offset)] == data[p - offset];
    }
  }

  lemma WrittenChunkIsOk(s: Source, file: seq<Byte>, c: nat)
    requires 0 < s.chunk && Countable(|s.bytes|, s.chunk) && c < Count(s)
    ensures ChunkOk(s, Overwrite(file, OffsetOf(s.chunk, c), DataOf(s, c)), c)
  {
    hide Right, Overwrite;
    WriteMakesRight(s.bytes, file, OffsetOf(s.chunk, c), DataOf(s, c));
  }

  lemma StateOkAfterWrite(w: World, s: Source, partials: map<string, seq<Byte>>, st: TransferState, offset: nat,
                          data: seq<Byte>)
    requires Sendable(w, s) && s.id in partials && StateOk(w, s, partials, st)
    requires offset + |data| <= |s.bytes| && data == s.bytes[offset..offset + |data|]
    ensures StateOk(w, s, partials[s.id := Overwrite(partials[s.id], offset, data)], st)
  {
    hide Right, Overwrite, OffsetOf, LengthOf, Count;
    forall c | c in st.completed ensures ChunkOk(s, Overwrite(partials[s.id], offset, data), c) {
      assert ChunkOk(s, partials[s.id], c);
      WriteKeepsRight(s.bytes, partials[s.id], offset, data, OffsetOf(s.chunk, c),
                      OffsetOf(s.chunk, c) + LengthOf(|s.bytes|, s.chunk, c));
    }
  }

  lemma GrowthKeepsRight(bytes: seq<Byte>, file: seq<Byte>, length: nat, a: int, b: int)
    requires Right(bytes, file, a, b) && |file| <= length
    ensures Right(bytes, Resized(file, length), a, b)
  {
    forall p | 0 <= p < |bytes| && a <= p < b ensures RightAt(bytes, Resized(file, length), p) {
      assert RightAt(bytes, file, p);
    }
  }

  lemma StateOkAfterGrowth(w: World, s: Source, partials: map<string, seq<Byte>>, st: TransferState, length: nat)
    requires Sendable(w, s) && s.id in partials && |partials[s.id]| <= length && StateOk(w, s, partials, st)
    ensures StateOk(w, s, partials[s.id := Resized(partials[s.id], length)], st)
  {
    hide Right, Resized, OffsetOf, LengthOf, Count;
    forall c | c in st.completed ensures ChunkOk(s, Resized(partials[s.id], length), c) {
      assert ChunkOk(s, partials[s.id], c);
      GrowthKeepsRight(s.bytes, partials[s.id], length, OffsetOf(s.chunk, c),
                       OffsetOf(s.chunk, c) + LengthOf(|s.bytes|, s.chunk, c));
    }
  }

  lemma StateOkElsewhere(w: World, s: Source, a: map<string, seq<Byte>>, b: map<string, seq<Byte>>, st: TransferState)
    requires Sendable(w, s) && StateOk(w, s, a, st)
    requires s.id in a ==> s.id in b && a[s.id] == b[s.id]
    ensures StateOk(w, s, b, st)
  {}

  // ---------- effects and plans keep the invariant ----------

  lemma EffectKeepsInv(w: World, s: Source, r: Receiver, x: Effect)
    requires Sendable(w, s) && ResumeInv(w, s, r) && Legit(w, s, r, x)
    ensures ResumeInv(w, s, Do(r, x))
  {
    hide ChunkOk, Overwrite, Resized;
    var r' := Do(r, x);
    match x
    case WriteBytes(id, offset, data) =>
      if id == s.id && id in r.partials {
        WriteBound(s, r.partials[id], offset, data);
        forall st | StateOk(w, s, r.partials, st) ensures StateOk(w, s, r'.partials, st) {
          StateOkAfterWrite(w, s, r.partials, st, offset, data);
        }
      }
    case SetLength(id, length) =>
      if id == s.id && id in r.partials {
        assert |Resized(r.partials[id], length)| == length by { ResizedLength(r.partials[id], length); }
        forall st | StateOk(w, s, r.partials, st) ensures StateOk(w, s, r'.partials, st) {
          StateOkAfterGrowth(w, s, r.partials, st, length);
        }
      }
    case _ =>
  }

  lemma ResizedLength(file: seq<Byte>, length: nat)
    ensures |Resized(file, length)| == length
  {}

  lemma WriteBound(s: Source, file: seq<Byte>, offset: nat, data: seq<Byte>)
    requires |file| <= |s.bytes| && offset + |data| <= |s.bytes|
    ensures |Overwrite(file, offset, data)| <= |s.bytes|
  {
    OverwriteAt(file, offset, data);
  }

  ghost predicate LegitPlan(w: World, s: Source, r: Receiver, plan: seq<Effect>)
    requires Sendable(w, s)
    decreases |plan|
  {
    plan == [] || (Legit(w, s, r, plan[0]) && LegitPlan(w, s, Do(r, plan[0]), plan[1..]))
  }

  lemma TearKeepsInv(w: World, s: Source, r: Receiver, x: Effect, n: nat)
    requires Sendable(w, s) && ResumeInv(w, s, r) && Legit(w, s, r, x)
    ensures ResumeInv(w, s, Tear(r, x, n))
  {
    hide ChunkOk, Overwrite;
    if x.WriteBytes? && n < |x.data| {
      if x.id == s.id {
        assert x.data[..n] == s.bytes[x.offset..x.offset + n];
      }
      EffectKeepsInv(w, s, r, WriteBytes(x.id, x.offset, x.data[..n]));
    } else if x.WriteBytes? {
      EffectKeepsInv(w, s, r, x);
    }
  }

  /** A legitimate plan, cut anywhere, torn or with the memory lost, keeps the invariant. */
  lemma {:induction false} CutKeepsInv(w: World, s: Source, r: Receiver, plan: seq<Effect>, c: Cut)
    requires Sendable(w, s) && ResumeInv(w, s, r) && LegitPlan(w, s, r, plan)
    ensures ResumeInv(w, s, PerformCut(r, plan, c))
    decreases |plan|
  {
    hide ResumeInv, Legit, Do, Tear;
    if plan == [] || c.done == 0 {
      assert plan[..0] == [];
      if plan != [] && c.torn.Some? {
        TearKeepsInv(w, s, r, plan[0], c.torn.value);
      }
      var torn := if plan != [] && c.torn.Some? then Tear(r, plan[0], c.torn.value) else r;
      MemoryLoss(w, s, torn);
    } else {
      EffectKeepsInv(w, s, r, plan[0]);
      CutKeepsInv(w, s, Do(r, plan[0]), plan[1..], c.(done := c.done - 1));
      var n := if c.done < |plan| then c.done else |plan|;
      assert plan[..n][0] == plan[0] && plan[..n][1..] == plan[1..][..n - 1];
    }
  }

  lemma MemoryLoss(w: World, s: Source, r: Receiver)
    requires Sendable(w, s) && ResumeInv(w, s, r)
    ensures ResumeInv(w, s, r.(active := map[]))
  {}

  lemma ForeignPlan(w: World, s: Source, r: Receiver, m: Message)
    requires Sendable(w, s) && ResumeInv(w, s, r) && m.id != s.id
    ensures LegitPlan(w, s, r, Plan(w, r, m).0)
  {
    var plan := Plan(w, r, m).0;
    forall i | 0 <= i < |plan| ensures Foreign(s, plan[i]) {
    }
    ForeignIsLegit(w, s, r, plan);
  }

  predicate Foreign(s: Source, x: Effect) {
    SubjectOf(x) != s.id && (x.Activate? ==> x.state.id == x.id)
  }

  lemma {:induction false} ForeignIsLegit(w: World, s: Source, r: Receiver, plan: seq<Effect>)
    requires Sendable(w, s) && forall i :: 0 <= i < |plan| ==> Foreign(s, plan[i])
    ensures LegitPlan(w, s, r, plan)
    decreases |plan|
  {
    if plan != [] {
      ForeignIsLegit(w, s, Do(r, plan[0]), plan[1..]);
    }
  }

  lemma InitPlanIsLegit(w: World, s: Source, r: Receiver)
    requires Sendable(w, s) && ResumeInv(w, s, r)
    ensures LegitPlan(w, s, r, Plan(w, r, InitOf(w, s)).0)
  {
    hide ChunkOk, OffsetOf, LengthOf;
    var m := InitOf(w, s);
    var state := ResumeState(r, m, w.clean(s.name).value);
    assert StateOk(w, s, r.partials, state);
    var tail := [SaveState(state), Activate(s.id, state)];
    var plan := Plan(w, r, m).0;
    if s.id in r.partials {
      assert plan == tail;
      InitTailIsLegit(w, s, r, state);
    } else {
      var created := Do(r, CreatePartial(s.id));
      var sized := Do(created, SetLength(s.id, |s.bytes|));
      StateOkElsewhere(w, s, r.partials, sized.partials, state);
      InitTailIsLegit(w, s, sized, state);
      assert plan == [CreatePartial(s.id), SetLength(s.id, |s.bytes|)] + tail;
      assert plan[1..] == [SetLength(s.id, |s.bytes|)] + tail && plan[1..][1..] == tail;
    }
  }

  lemma InitTailIsLegit(w: World, s: Source, r: Receiver, state: TransferState)
    requires Sendable(w, s) && s.id in r.partials && StateOk(w, s, r.partials, state)
    ensures LegitPlan(w, s, r, [SaveState(state), Activate(s.id, state)])
  {
    hide ChunkOk;
    var plan := [SaveState(state), Activate(s.id, state)];
    var saved := Do(r, plan[0]);
    assert plan[1..] == [Activate(s.id, state)];
    assert LegitPlan(w, s, saved, plan[1..]) by {
      assert Legit(w, s, saved, plan[1..][0]);
      assert plan[1..][1..] == [];
      assert LegitPlan(w, s, Do(saved, plan[1..][0]), []);
    }
  }

  lemma ChunkPlanIsLegit(w: World, s: Source, r: Receiver, i: nat)
    requires Sendable(w, s) && ResumeInv(w, s, r) && i < Count(s)
    ensures LegitPlan(w, s, r, Plan(w, r, ChunkOf(w, s, i)).0)
  {
    var m := ChunkOf(w, s, i);
    var plan := Plan(w, r, m).0;
    if s.id in r.partials {
      var write := WriteBytes(s.id, m.offset, m.data);
      var written := Do(r, write);
      WrittenChunkIsOk(s, r.partials[s.id], i);
      hide ChunkOk, Overwrite, OffsetOf, LengthOf;
      if s.id in r.active {
        var st := r.active[s.id];
        var st' := st.(completed := st.completed + {i});
        StateOkAfterWrite(w, s, r.partials, st, m.offset, m.data);
        assert StateOk(w, s, written.partials, st');
        assert plan == [write, Remember(s.id, i), SaveState(st')];
        assert plan[1..] == [Remember(s.id, i), SaveState(st')] && plan[1..][1..] == [SaveState(st')];
        assert plan[1..][1..][1..] == [];
        var remembered := Do(written, Remember(s.id, i));
        assert LegitPlan(w, s, remembered, [SaveState(st')]);
      } else {
        assert plan == [write] && plan[1..] == [];
      }
    }
  }

  // ---------- interrupted attempts ----------

  /** What may happen to this transfer, in any order; every handler may be cut. */
  datatype Event =
    | Begin(c: Cut)
    | Send(i: nat, c: Cut)
    | Finish(c: Cut)
    | Other(m: Message, c: Cut)
    | Die

  predicate Possible(s: Source, e: Event)
    requires 0 < s.chunk
  {
    match e
    case Send(i, _) => i < Count(s)
    case Other(m, _) => m.id != s.id
    case _ => true
  }

  ghost predicate AllPossible(s: Source, events: seq<Event>)
    requires 0 < s.chunk
  {
    forall e :: e in events ==> Possible(s, e)
  }

  function Happen(w: World, s: Source, r: Receiver, e: Event): (r': Receiver)
    requires Sendable(w, s) && Possible(s, e)
  {
    match e
    case Begin(c) => HandleCut(w, r, InitOf(w, s), c)
    case Send(i, c) => HandleCut(w, r, ChunkOf(w, s, i), c)
    case Finish(c) => HandleCut(w, r, CompleteOf(w, s), c)
    case Other(m, c) => HandleCut(w, r, m, c)
    case Die => r.(active := map[])
  }

  function History(w: World, s: Source, r: Receiver, events: seq<Event>): (r': Receiver)
    requires Sendable(w, s) && AllPossible(s, events)
    decreases |events|
  {
    if events == [] then r else History(w, s, Happen(w, s, r, events[0]), events[1..])
  }

  lemma DeactivateIsLegit(w: World, s: Source, r: Receiver)
    requires Sendable(w, s)
    ensures LegitPlan(w, s, r, [Deactivate(s.id)])
  {
    assert [Deactivate(s.id)][1..] == [];
  }

  /** A completion cut between moving the file and removing its checkpoint, where that claims any chunk. */
  predicate InGap(w: World, s: Source, r: Receiver, e: Event)
    requires Sendable(w, s)
  {
    e.Finish? && e.c.done == 2 && |Plan(w, r, CompleteOf(w, s)).0| == 3 &&
    s.id in r.states && r.states[s.id].Saved? && r.states[s.id].state.completed != {}
  }

  lemma FinishKeepsInvIff(w: World, s: Source, r: Receiver, c: Cut)
    requires Sendable(w, s) && ResumeInv(w, s, r)
    ensures ResumeInv(w, s, HandleCut(w, r, CompleteOf(w, s), c)) <==> !InGap(w, s, r, Finish(c))
  {
    var plan := Plan(w, r, CompleteOf(w, s)).0;
    DeactivateIsLegit(w, s, r);
    hide LegitPlan, StateOk;
    if |plan| == 3 && 3 <= c.done {
      assert plan[..3] == plan;
      PerformThree(r, plan[0], plan[1], plan[2]);
    } else if |plan| == 3 && c.done == 2 {
      MovedKeepsInvIff(w, s, r, c);
    } else if |plan| == 3 {
      CutKeepsInv(w, s, r, [Deactivate(s.id)], c);
      assert plan[..c.done] == [Deactivate(s.id)][..c.done];
    } else if plan == [] {
      assert LegitPlan(w, s, r, []) by { EmptyIsLegit(w, s, r); }
      CutKeepsInv(w, s, r, plan, c);
    } else {
      CutKeepsInv(w, s, r, plan, c);
    }
  }

  /** The checkpoint that the gap leaves behind is harmless exactly if it claims nothing. */
  lemma MovedKeepsInvIff(w: World, s: Source, r: Receiver, c: Cut)
    requires Sendable(w, s) && ResumeInv(w, s, r) && |Plan(w, r, CompleteOf(w, s)).0| == 3 && c.done == 2
    ensures ResumeInv(w, s, HandleCut(w, r, CompleteOf(w, s), c)) <==> !InGap(w, s, r, Finish(c))
  {
    var plan := Plan(w, r, CompleteOf(w, s)).0;
    assert plan[..2] == [plan[0], plan[1]];
    PerformTwo(r, plan[0], plan[1]);
    hide Perform, ChunkOk;
    var after := HandleCut(w, r, CompleteOf(w, s), c);
    assert after.states == r.states && s.id !in after.partials && s.id !in after.active;
    if InGap(w, s, r, Finish(c)) {
      var i :| i in r.states[s.id].state.completed;
      assert !StateOk(w, s, after.partials, r.states[s.id].state);
    }
  }

  lemma EmptyIsLegit(w: World, s: Source, r: Receiver)
    requires Sendable(w, s)
    ensures LegitPlan(w, s, r, [])
  {}

  /** Exactly one thing that can happen breaks the invariant: a crash in the gap. */
  lemma HappenKeepsInvIff(w: World, s: Source, r: Receiver, e: Event)
    requires Sendable(w, s) && ResumeInv(w, s, r) && Possible(s, e)
    ensures ResumeInv(w, s, Happen(w, s, r, e)) <==> !InGap(w, s, r, e)
  {
    hide Plan, LegitPlan, PerformCut;
    match e
    case Begin(c) =>
      InitPlanIsLegit(w, s, r);
      CutKeepsInv(w, s, r, Plan(w, r, InitOf(w, s)).0, c);
    case Send(i, c) =>
      ChunkPlanIsLegit(w, s, r, i);
      CutKeepsInv(w, s, r, Plan(w, r, ChunkOf(w, s, i)).0, c);
    case Finish(c) => FinishKeepsInvIff(w, s, r, c);
    case Other(m, c) =>
      ForeignPlan(w, s, r, m);
      CutKeepsInv(w, s, r, Plan(w, r, m).0, c);
    case Die => MemoryLoss(w, s, r);
  }

  /** No crash of the history falls into the gap. */
  ghost predicate OutsideGap(w: World, s: Source, r: Receiver, events: seq<Event>)
    requires Sendable(w, s) && AllPossible(s, events)
    decreases |events|
  {
    events == [] ||
    (!InGap(w, s, r, events[0]) && OutsideGap(w, s, Happen(w, s, r, events[0]), events[1..]))
  }

  /** Any history whose crashes stay outside the gap keeps every checkpointed chunk right. */
  lemma {:induction false} HistoryKeepsInv(w: World, s: Source, r: Receiver, events: seq<Event>)
    requires Sendable(w, s) && ResumeInv(w, s, r) && AllPossible(s, events) && OutsideGap(w, s, r, events)
    ensures ResumeInv(w, s, History(w, s, r, events))
    decreases |events|
  {
    hide ResumeInv, Happen, InGap;
    if events != [] {
      HappenKeepsInvIff(w, s, r, events[0]);
      HistoryKeepsInv(w, s, Happen(w, s, r, events[0]), events[1..]);
    }
  }

  /** A process that dies keeps what is on disk and forgets the active transfers. */
  lemma DyingForgets(w: World, s: Source, r: Receiver)
    requires Sendable(w, s)
    ensures var after := Happen(w, s, r, Die);
            && after.active == map[] && after.partials == r.partials && after.states == r.states
            && after.placed == r.placed && after.folders == r.folders
  {}

  // ---------- an uninterrupted attempt ----------

  const WHOLE := Cut(4, None, false)

  lemma WholeCut(w: World, r: Receiver, m: Message)
    ensures HandleCut(w, r, m, WHOLE) == Handle(w, r, m)
  {
    var plan := Plan(w, r, m).0;
    assert |plan| <= 4;
    assert plan[..|plan|] == plan;
  }

  /** What a complete init leaves: memory and checkpoint hold the resumed state, and the partial file exists. */
  lemma InitShape(w: World, s: Source, r: Receiver)
    requires Sendable(w, s) && Keyed(r)
    ensures var m := InitOf(w, s);
            var begun, state := Handle(w, r, m), ResumeState(r, m, w.clean(s.name).value);
            && Plan(w, r, m).1 == InitAck(state.completed)
            && begun.active == r.active[s.id := state] && begun.states == r.states[s.id := Saved(state)]
            && begun.placed == r.placed && begun.folders == r.folders
            && begun.partials == (if s.id in r.partials then r.partials
                                  else r.partials[s.id := Resized([], |s.bytes|)])
  {
    var m := InitOf(w, s);
    var state := ResumeState(r, m, w.clean(s.name).value);
    hide Perform, Resized;
    var tail := [SaveState(state), Activate(s.id, state)];
    var plan := Plan(w, r, m).0;
    if s.id in r.partials {
      assert plan == tail;
      PerformTwo(r, tail[0], tail[1]);
    } else {
      var head := [CreatePartial(s.id), SetLength(s.id, |s.bytes|)];
      assert plan == head + tail;
      PerformAppend(r, head, tail);
      PerformTwo(r, head[0], head[1]);
      PerformTwo(Do(Do(r, head[0]), head[1]), tail[0], tail[1]);
      assert r.partials[s.id := []][s.id := Resized([], |s.bytes|)] == r.partials[s.id := Resized([], |s.bytes|)];
    }
  }

  /** What a complete, accepted chunk leaves. */
  lemma ChunkShape(w: World, s: Source, r: Receiver, i: nat)
    requires Sendable(w, s) && i < Count(s) && s.id in r.partials && s.id in r.active && r.active[s.id].id == s.id
    ensures var m := ChunkOf(w, s, i);
            var after, st := Handle(w, r, m), r.active[s.id].(completed := r.active[s.id].completed + {i});
            && Plan(w, r, m).1 == ChunkAck(i, true)
            && after.active == r.active[s.id := st] && after.states == r.states[s.id := Saved(st)]
            && after.placed == r.placed && after.folders == r.folders
            && after.partials == r.partials[s.id := Overwrite(r.partials[s.id], OffsetOf(s.chunk, i), DataOf(s, i))]
  {
    hide Overwrite, OffsetOf, LengthOf;
    var m := ChunkOf(w, s, i);
    var st := r.active[s.id].(completed := r.active[s.id].completed + {i});
    var plan := Plan(w, r, m).0;
    assert plan == [WriteBytes(s.id, m.offset, m.data), Remember(s.id, i), SaveState(st)];
    PerformThree(r, plan[0], plan[1], plan[2]);
  }

  function From(existing: set<nat>, i: nat): (chunks: set<nat>) {
    set c | c in existing && i <= c
  }

  ghost predicate Ready(w: World, s: Source, r: Receiver, existing: set<nat>, i: nat)
    requires Sendable(w, s)
  {
    ResumeInv(w, s, r) && s.id in r.active &&
    existing <= r.active[s.id].completed && (forall c :: 0 <= c < i ==> c in r.active[s.id].completed)
  }

  lemma ChunkKeepsReady(w: World, s: Source, r: Receiver, existing: set<nat>, i: nat)
    requires Sendable(w, s) && i < Count(s) && Ready(w, s, r, existing, i)
    ensures Plan(w, r, ChunkOf(w, s, i)).1 == ChunkAck(i, true)
    ensures Ready(w, s, Handle(w, r, ChunkOf(w, s, i)), existing, i + 1)
    ensures Handle(w, r, ChunkOf(w, s, i)).placed == r.placed && Handle(w, r, ChunkOf(w, s, i)).folders == r.folders
  {
    hide StateOk, Plan, Handle, HandleCut;
    ChunkShape(w, s, r, i);
    WholeCut(w, r, ChunkOf(w, s, i));
    HappenKeepsInvIff(w, s, r, Send(i, WHOLE));
  }

  lemma {:induction false} LoopCompletes(w: World, s: Source, r: Receiver, existing: set<nat>, i: nat)
    requires Sendable(w, s) && i <= Count(s) && Ready(w, s, r, existing, i)
    requires forall c :: c in existing ==> c < Count(s)
    ensures var a := SendFrom(w, s, r, existing, i);
            && a.ok && a.skipped == |From(existing, i)| && Ready(w, s, a.r, existing, Count(s))
            && a.r.placed == r.placed && a.r.folders == r.folders
    decreases Count(s) - i
  {
    hide Ready, Plan, Handle, Count;
    if i == Count(s) {
      assert From(existing, i) == {};
    } else if i in existing {
      SkippedIsReady(w, s, r, existing, i);
      LoopCompletes(w, s, r, existing, i + 1);
      assert From(existing, i) == From(existing, i + 1) + {i};
    } else {
      ChunkKeepsReady(w, s, r, existing, i);
      LoopCompletes(w, s, Handle(w, r, ChunkOf(w, s, i)), existing, i + 1);
      assert From(existing, i) == From(existing, i + 1);
    }
  }

  lemma SkippedIsReady(w: World, s: Source, r: Receiver, existing: set<nat>, i: nat)
    requires Sendable(w, s) && Ready(w, s, r, existing, i) && i in existing
    ensures Ready(w, s, r, existing, i + 1)
  {}

  /** When every chunk is right, the partial file is the source. */
  lemma AllChunksMakeTheFile(s: Source, file: seq<Byte>)
    requires 0 < s.chunk && Countable(|s.bytes|, s.chunk) && |file| <= |s.bytes|
    requires forall c :: 0 <= c < Count(s) ==> ChunkOk(s, file, c)
    ensures file == s.bytes
  {
    hide LengthOf, OffsetOf;
    forall p | 0 <= p < |s.bytes| ensures RightAt(s.bytes, file, p) {
      var c := Covered(|s.bytes|, s.chunk, p);
      assert ChunkOk(s, file, c);
    }
    if s.bytes != [] {
      assert RightAt(s.bytes, file, |s.bytes| - 1);
    }
    assert |file| == |s.bytes|;
    forall p | 0 <= p < |file| ensures file[p] == s.bytes[p] {
      assert RightAt(s.bytes, file, p);
    }
  }

  lemma CompleteShape(w: World, s: Source, r: Receiver)
    requires Sendable(w, s) && s.id in r.active && s.id in r.partials && r.active[s.id].hash == w.hash(s.bytes)
    requires w.hash(r.partials[s.id]) == w.hash(s.bytes)
    ensures var m := CompleteOf(w, s);
            && Plan(w, r, m).1 == CompleteAck(true)
            && Handle(w, r, m).placed == r.placed[DestOf(r, r.active[s.id]) := r.partials[s.id]]
  {
    var plan := Plan(w, r, CompleteOf(w, s)).0;
    PerformThree(r, plan[0], plan[1], plan[2]);
  }

  function TargetDest(w: World, s: Source, r: Receiver): (dest: Dest)
    requires Sendable(w, s)
  {
    Dest(if s.folder.Some? && s.folder.value in r.folders then s.folder else None, w.clean(s.name).value)
  }

  /** An attempt begun in the invariant places the source's bytes, and skips exactly what was checkpointed. */
  lemma AttemptFromInv(w: World, s: Source, r: Receiver)
    requires Sendable(w, s) && ResumeInv(w, s, r)
    ensures var a := SendFile(w, s, r);
            && a.ok && a.r.placed == r.placed[TargetDest(w, s, r) := s.bytes]
            && a.sent + a.skipped == Count(s)
            && a.skipped == |ResumeState(r, InitOf(w, s), w.clean(s.name).value).completed|
  {
    hide Plan, Handle, HandleCut, ChunkOk, Count;
    InitShape(w, s, r);
    WholeCut(w, r, InitOf(w, s));
    HappenKeepsInvIff(w, s, r, Begin(WHOLE));
    AttemptAfterInit(w, s, r);
  }

  lemma AttemptAfterInit(w: World, s: Source, r: Receiver)
    requires Sendable(w, s) && Keyed(r) && ResumeInv(w, s, Handle(w, r, InitOf(w, s)))
    ensures var a := SendFile(w, s, r);
            && a.ok && a.r.placed == r.placed[TargetDest(w, s, r) := s.bytes]
            && a.sent + a.skipped == Count(s)
            && a.skipped == |ResumeState(r, InitOf(w, s), w.clean(s.name).value).completed|
  {
    hide Plan, Handle, HandleCut, ChunkOk;
    InitShape(w, s, r);
    var begun, existing := Handle(w, r, InitOf(w, s)), ResumeState(r, InitOf(w, s), w.clean(s.name).value).completed;
    ExistingInRange(w, s, begun, existing);
    LoopCompletes(w, s, begun, existing, 0);
    assert From(existing, 0) == existing;
    var a := SendFrom(w, s, begun, existing, 0);
    AllRight(w, s, a.r, existing);
    AllChunksMakeTheFile(s, a.r.partials[s.id]);
    CompleteShape(w, s, a.r);
  }

  lemma ExistingInRange(w: World, s: Source, r: Receiver, existing: set<nat>)
    requires Sendable(w, s) && ResumeInv(w, s, r) && s.id in r.active && existing == r.active[s.id].completed
    ensures Ready(w, s, r, existing, 0) && forall c :: c in existing ==> c < Count(s)
  {
    hide Right;
    assert forall c :: c in existing ==> ChunkOk(s, r.partials[s.id], c);
  }

  lemma AllRight(w: World, s: Source, r: Receiver, existing: set<nat>)
    requires Sendable(w, s) && Ready(w, s, r, existing, Count(s))
    ensures s.id in r.partials && |r.partials[s.id]| <= |s.bytes|
    ensures forall c :: 0 <= c < Count(s) ==> ChunkOk(s, r.partials[s.id], c)
    ensures r.active[s.id].hash == w.hash(s.bytes) && DestOf(r, r.active[s.id]) == TargetDest(w, s, r)
  {
    hide ChunkOk, Count;
  }

  ghost predicate Unknown(s: Source, r: Receiver) {
    Keyed(r) && s.id !in r.partials && s.id !in r.states && s.id !in r.active
  }

  /** Resume correctness: after any interrupted attempts, one uninterrupted attempt places the source, whole. */
  lemma ResumeCompletes(w: World, s: Source, r: Receiver, events: seq<Event>)
    requires Sendable(w, s) && Unknown(s, r) && AllPossible(s, events) && OutsideGap(w, s, r, events)
    ensures var before := History(w, s, r, events);
            var a := SendFile(w, s, before);
            && a.ok && a.sent + a.skipped == Count(s)
            && a.r.placed == before.placed[TargetDest(w, s, before) := s.bytes]
  {
    HistoryKeepsInv(w, s, r, events);
    AttemptFromInv(w, s, History(w, s, r, events));
  }
}
