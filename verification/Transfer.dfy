/**
 The receiving side of a resumable transfer as a value (receiver.rs, state.rs), with every handler
 spelled out as the list of effects it performs, so that it can be cut between any two of them.

 The file hash is a parameter. Paths are cleaned by a parameter: `clean(name)` is the safe relative
 path, or None when nothing is left of the name.
 */
module Transfer {
  import opened Outcomes
  import opened Codec

  datatype TransferState = TransferState(
    id: string, folder: Option<string>, fileName: string, size: nat, hash: string, chunkSize: nat, total: nat,
    completed: set<nat>)

  /** A state file is a whole record, or what a cut write left of one. */
  datatype StateFile = Saved(state: TransferState) | Torn

  datatype Dest = Dest(folder: Option<string>, name: string)

  /** Staging directory, memory, destination tree, and the registered folders. */
  datatype Receiver = Receiver(
    partials: map<string, seq<Byte>>, states: map<string, StateFile>, active: map<string, TransferState>,
    placed: map<Dest, seq<Byte>>, folders: set<string>)

  datatype Message =
    | Init(id: string, folder: Option<string>, name: string, size: nat, hash: string, chunkSize: nat, total: nat)
    | Chunk(id: string, index: nat, offset: nat, data: seq<Byte>, chunkHash: string)
    | Complete(id: string, hash: string)

  datatype Reply =
    | InitAck(existing: set<nat>)
    | ChunkAck(index: nat, accepted: bool)
    | CompleteAck(verified: bool)
    | Failed

  // ---------- effects ----------

  datatype Effect =
    | CreatePartial(id: string)
    | SetLength(id: string, length: nat)
    | SaveState(state: TransferState)
    | Activate(id: string, state: TransferState)
    | WriteBytes(id: string, offset: nat, data: seq<Byte>)
    | Remember(id: string, index: nat)
    | Deactivate(id: string)
    | Place(id: string, dest: Dest)
    | DropState(id: string)

  function Resized(file: seq<Byte>, length: nat): (file': seq<Byte>) {
    if length <= |file| then file[..length] else file + seq(length - |file|, _ => 0)
  }

  /** Seek and write: a gap reads as zeros, and writing nothing does not extend the file. */
  function Overwrite(file: seq<Byte>, offset: nat, data: seq<Byte>): (file': seq<Byte>) {
    if data == [] then file
    else
      var end := offset + |data|;
      Resized(file, if |file| < offset then offset else |file|)[..offset] + data +
      if end < |file| then file[end..] else []
  }

  /** What a read finds at a position once the file has grown over it. */
  function ByteAt(file: seq<Byte>, p: nat): (b: Byte) {
    if p < |file| then file[p] else 0
  }

  /** After a write the data is at its place, and the rest of the file is as it was. */
  lemma OverwriteAt(file: seq<Byte>, offset: nat, data: seq<Byte>)
    ensures var after := Overwrite(file, offset, data);
            && |after| == (if data != [] && |file| < offset + |data| then offset + |data| else |file|)
            && (forall p :: 0 <= p < |data| ==> after[offset + p] == data[p])
            && (forall p :: 0 <= p < |after| && !(offset <= p < offset + |data|) ==> after[p] == ByteAt(file, p))
  {
    if data != [] {
      hide Resized, ByteAt;
      var front := FrontOf(file, offset);
      var end := offset + |data|;
      var back := if end < |file| then file[end..] else [];
      WriteBetween(front, data, back);
      forall p | end <= p < |front + data + back| ensures (front + data + back)[p] == ByteAt(file, p) {
        assert back[p - end] == file[p];
        ByteWithin(file, p);
      }
    }
  }

  lemma ByteWithin(file: seq<Byte>, p: nat)
    requires p < |file|
    ensures ByteAt(file, p) == file[p]
  {}

  /** The file up to where the write begins. */
  lemma FrontOf(file: seq<Byte>, offset: nat) returns (front: seq<Byte>)
    ensures front == Resized(file, if |file| < offset then offset else |file|)[..offset] && |front| == offset
    ensures forall p :: 0 <= p < offset ==> front[p] == ByteAt(file, p)
  {
    front := Resized(file, if |file| < offset then offset else |file|)[..offset];
  }

  lemma WriteBetween(front: seq<Byte>, data: seq<Byte>, back: seq<Byte>)
    ensures var after := front + data + back;
            && (forall p :: 0 <= p < |front| ==> after[p] == front[p])
            && (forall p :: 0 <= p < |data| ==> after[|front| + p] == data[p])
            && (forall p :: |front| + |data| <= p < |after| ==> after[p] == back[p - |front| - |data|])
  {}

  function Do(r: Receiver, x: Effect): (r': Receiver) {
    match x
    case CreatePartial(id) => r.(partials := r.partials[id := []])
    case SetLength(id, length) =>
      if id in r.partials then r.(partials := r.partials[id := Resized(r.partials[id], length)]) else r
    case SaveState(state) => r.(states := r.states[state.id := Saved(state)])
    case Activate(id, state) => r.(active := r.active[id := state])
    case WriteBytes(id, offset, data) =>
      if id in r.partials then r.(partials := r.partials[id := Overwrite(r.partials[id], offset, data)]) else r
    case Remember(id, index) =>
      if id in r.active then
        r.(active := r.active[id := r.active[id].(completed := r.active[id].completed + {index})])
      else r
    case Deactivate(id) => r.(active := r.active - {id})
    case Place(id, dest) =>
      if id in r.partials then r.(placed := r.placed[dest := r.partials[id]], partials := r.partials - {id}) else r
    case DropState(id) => r.(states := r.states - {id})
  }

  function Perform(r: Receiver, plan: seq<Effect>): (r': Receiver)
    decreases |plan|
  {
    if plan == [] then r else Perform(Do(r, plan[0]), plan[1..])
  }

  // ---------- handlers ----------

  function NewState(m: Message, name: string): (state: TransferState)
    requires m.Init?
  {
    TransferState(m.id, m.folder, name, m.size, m.hash, m.chunkSize, m.total, {})
  }

  /** The saved state if it is readable and of the same content, else a new one. */
  function ResumeState(r: Receiver, m: Message, name: string): (state: TransferState)
    requires m.Init?
  {
    if m.id in r.states && r.states[m.id].Saved? && r.states[m.id].state.hash == m.hash &&
       r.states[m.id].state.size == m.size
    then r.states[m.id].state
    else NewState(m, name)
  }

  function InitPlan(clean: string -> Option<string>, r: Receiver, m: Message): (plan: (seq<Effect>, Reply))
    requires m.Init?
  {
    match clean(m.name)
    case None => ([], Failed)
    case Some(name) =>
      var state := ResumeState(r, m, name);
      ((if m.id in r.partials then [] else [CreatePartial(m.id), SetLength(m.id, m.size)]) +
       [SaveState(state), Activate(m.id, state)],
       InitAck(state.completed))
  }

  function ChunkPlan(hash: seq<Byte> -> string, r: Receiver, m: Message): (plan: (seq<Effect>, Reply))
    requires m.Chunk?
  {
    if hash(m.data) != m.chunkHash then ([], ChunkAck(m.index, false))
    else if m.id !in r.partials then ([], Failed)
    else
      ([WriteBytes(m.id, m.offset, m.data)] +
       (if m.id in r.active then
          [Remember(m.id, m.index),
           SaveState(r.active[m.id].(completed := r.active[m.id].completed + {m.index}))]
        else []),
       ChunkAck(m.index, true))
  }

  function DestOf(r: Receiver, state: TransferState): (dest: Dest) {
    Dest(if state.folder.Some? && state.folder.value in r.folders then state.folder else None, state.fileName)
  }

  /** The state a completion works on: from memory, else from its file. */
  function CurrentState(r: Receiver, id: string): (state: Option<TransferState>) {
    if id in r.active then Some(r.active[id])
    else if id in r.states && r.states[id].Saved? then Some(r.states[id].state)
    else None
  }

  function CompletePlan(hash: seq<Byte> -> string, r: Receiver, m: Message): (plan: (seq<Effect>, Reply))
    requires m.Complete?
  {
    match CurrentState(r, m.id)
    case None => ([], Failed)
    case Some(state) =>
      if m.id !in r.partials then ([Deactivate(m.id)], Failed)
      else
        var computed := hash(r.partials[m.id]);
        if computed != m.hash || computed != state.hash then ([Deactivate(m.id)], CompleteAck(false))
        else ([Deactivate(m.id), Place(m.id, DestOf(r, state)), DropState(m.id)], CompleteAck(true))
  }

  /** The program's two parameters. */
  datatype World = World(hash: seq<Byte> -> string, clean: string -> Option<string>)

  function Plan(w: World, r: Receiver, m: Message): (plan: (seq<Effect>, Reply)) {
    match m
    case Init(_, _, _, _, _, _, _) => InitPlan(w.clean, r, m)
    case Chunk(_, _, _, _, _) => ChunkPlan(w.hash, r, m)
    case Complete(_, _) => CompletePlan(w.hash, r, m)
  }

  function Handle(w: World, r: Receiver, m: Message): (r': Receiver) {
    Perform(r, Plan(w, r, m).0)
  }

  // ---------- handlers cut short ----------

  /**
   How far a handler gets: `done` effects, then perhaps a part of the next one (`torn` bytes of a write, or
   a broken state file), then perhaps the process dies and its memory is lost.
   */
  datatype Cut = Cut(done: nat, torn: Option<nat>, dies: bool)

  function Tear(r: Receiver, x: Effect, n: nat): (r': Receiver) {
    match x
    case SaveState(state) => r.(states := r.states[state.id := StateFile.Torn])
    case WriteBytes(id, offset, data) => Do(r, WriteBytes(id, offset, if n < |data| then data[..n] else data))
    case _ => r
  }

  function PerformCut(r: Receiver, plan: seq<Effect>, c: Cut): (r': Receiver) {
    var n := if c.done < |plan| then c.done else |plan|;
    var reached := Perform(r, plan[..n]);
    var torn := if n < |plan| && c.torn.Some? then Tear(reached, plan[n], c.torn.value) else reached;
    if c.dies then torn.(active := map[]) else torn
  }

  function HandleCut(w: World, r: Receiver, m: Message, c: Cut): (r': Receiver) {
    PerformCut(r, Plan(w, r, m).0, c)
  }

  lemma {:induction false} PerformAppend(r: Receiver, a: seq<Effect>, b: seq<Effect>)
    ensures Perform(r, a + b) == Perform(Perform(r, a), b)
    decreases |a|
  {
    if a == [] {
      assert a + b == b;
    } else {
      assert (a + b)[0] == a[0] && (a + b)[1..] == a[1..] + b;
      PerformAppend(Do(r, a[0]), a[1..], b);
    }
  }

  lemma PerformOne(r: Receiver, a: Effect)
    ensures Perform(r, [a]) == Do(r, a)
  {
    assert [a][1..] == [];
  }

  lemma PerformTwo(r: Receiver, a: Effect, b: Effect)
    ensures Perform(r, [a, b]) == Do(Do(r, a), b)
  {
    hide Do;
    assert [a, b][1..] == [b];
    PerformOne(Do(r, a), b);
  }

  lemma PerformThree(r: Receiver, a: Effect, b: Effect, c: Effect)
    ensures Perform(r, [a, b, c]) == Do(Do(Do(r, a), b), c)
  {
    hide Do;
    assert [a, b, c][1..] == [b, c];
    PerformTwo(Do(r, a), b, c);
  }
}
