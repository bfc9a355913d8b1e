/**
 The receiver and the sender as the objects that run (receiver.rs, sender.rs), proved against the
 transfer on values. A sender talks to its receiver directly: every message is answered.
 */
module Endpoints {
  import opened Outcomes
  import opened Codec
  import opened Tiling
  import opened Transfer
  import opened Resume

  class FileReceiver {
    var partials: map<string, seq<Byte>>
    var states: map<string, StateFile>
    var active: map<string, TransferState>
    var placed: map<Dest, seq<Byte>>
    var folders: set<string>

    ghost function View(): (r: Receiver)
      reads this
    {
      Receiver(partials, states, active, placed, folders)
    }

    constructor ()
      ensures View() == Receiver(map[], map[], map[], map[], {})
    {
      partials, states, active, placed, folders := map[], map[], map[], map[], {};
    }

    method RegisterFolderDestination(folder: string)
      modifies this`folders
      ensures folders == old(folders) + {folder}
    {
      folders := folders + {folder};
    }

    method HandleInit(w: World, m: Message) returns (reply: Reply)
      requires m.Init?
      modifies this
      ensures View() == Handle(w, old(View()), m) && reply == Plan(w, old(View()), m).1
    {
      hide Resized;
      ghost var plan := Plan(w, View(), m).0;
      var name := w.clean(m.name);
      if name.None? {
        return Failed;
      }
      var state := NewState(m, name.value);
      if m.id in states && states[m.id].Saved? {
        var existing := states[m.id].state;
        if existing.hash == m.hash && existing.size == m.size {
          state := existing;
        }
      }
      ghost var r0 := View();
      ghost var create: seq<Effect> := [];
      if m.id !in partials {
        partials := partials[m.id := []];
        partials := partials[m.id := Resized(partials[m.id], m.size)];
        create := [CreatePartial(m.id), SetLength(m.id, m.size)];
        PerformTwo(r0, create[0], create[1]);
      }
      assert View() == Perform(r0, create);
      PerformTwo(View(), SaveState(state), Activate(m.id, state));
      states := states[state.id := Saved(state)];
      active := active[m.id := state];
      PerformAppend(r0, create, [SaveState(state), Activate(m.id, state)]);
      assert plan == create + [SaveState(state), Activate(m.id, state)];
      return InitAck(state.completed);
    }

    method HandleChunk(w: World, m: Message) returns (reply: Reply)
      requires m.Chunk?
      modifies this`partials, this`active, this`states
      ensures View() == Handle(w, old(View()), m) && reply == Plan(w, old(View()), m).1
      ensures w.hash(m.data) != m.chunkHash ==> View() == old(View()) && reply == ChunkAck(m.index, false)
      ensures reply == ChunkAck(m.index, true) <==> w.hash(m.data) == m.chunkHash && m.id in old(partials)
    {
      ghost var r0 := View();
      if w.hash(m.data) != m.chunkHash {
        return ChunkAck(m.index, false);
      }
      if m.id !in partials {
        return Failed;
      }
      partials := partials[m.id := Overwrite(partials[m.id], m.offset, m.data)];
      if m.id in active {
        var state := active[m.id].(completed := active[m.id].completed + {m.index});
        active := active[m.id := state];
        states := states[state.id := Saved(state)];
        PerformThree(r0, WriteBytes(m.id, m.offset, m.data), Remember(m.id, m.index), SaveState(state));
        assert [WriteBytes(m.id, m.offset, m.data)] + [Remember(m.id, m.index), SaveState(state)] ==
               [WriteBytes(m.id, m.offset, m.data), Remember(m.id, m.index), SaveState(state)];
      } else {
        PerformOne(r0, WriteBytes(m.id, m.offset, m.data));
        assert [WriteBytes(m.id, m.offset, m.data)] + [] == [WriteBytes(m.id, m.offset, m.data)];
      }
      return ChunkAck(m.index, true);
    }

    method HandleComplete(w: World, m: Message) returns (reply: Reply)
      requires m.Complete?
      modifies this
      ensures View() == Handle(w, old(View()), m) && reply == Plan(w, old(View()), m).1
    {
      ghost var r0 := View();
      var state: TransferState;
      if m.id in active {
        state := active[m.id];
        active := active - {m.id};
      } else if m.id in states && states[m.id].Saved? {
        state := states[m.id].state;
      } else {
        return Failed;
      }
      assert View() == Do(r0, Deactivate(m.id)) by {
        assert r0.active - {m.id} == active;
      }
      PerformOne(r0, Deactivate(m.id));
      if m.id !in partials {
        return Failed;
      }
      var computed := w.hash(partials[m.id]);
      if computed != m.hash || computed != state.hash {
        return CompleteAck(false);
      }
      var folder := if state.folder.Some? && state.folder.value in folders then state.folder else None;
      var dest := Dest(folder, state.fileName);
      PerformThree(r0, Deactivate(m.id), Place(m.id, dest), DropState(m.id));
      placed := placed[dest := partials[m.id]];
      partials := partials - {m.id};
      states := states - {m.id};
      return CompleteAck(true);
    }
  }

  class FileSender {
    const chunkSize: nat

    constructor (size: nat)
      ensures chunkSize == size
    {
      chunkSize := size;
    }

    /** The chunk loop: what the receiver has is skipped, every other chunk is sent and acknowledged. */
    method SendChunks(w: World, s: Source, rx: FileReceiver, existing: set<nat>)
      returns (ok: bool, sent: nat, skipped: nat)
      requires s.chunk == chunkSize && Sendable(w, s)
      modifies rx
      ensures Attempt(rx.View(), ok, sent, skipped) == SendFrom(w, s, old(rx.View()), existing, 0)
    {
      hide Plan, Handle, ChunkOf;
      var fileSize := |s.bytes|;
      var total := if fileSize == 0 then 1 else (fileSize + chunkSize - 1) / chunkSize % TWO_TO_THE_32;
      assert total == Count(s);
      hide TotalChunks, Countable;
      sent, skipped := 0, 0;
      var index := 0;
      ghost var whole := SendFrom(w, s, rx.View(), existing, 0);
      while index < total
        invariant 0 <= index <= total == Count(s)
        invariant whole == Continued(SendFrom(w, s, rx.View(), existing, index), sent, skipped)
      {
        if index in existing {
          skipped := skipped + 1;
        } else {
          var m := ChunkOf(w, s, index);
          var ack := rx.HandleChunk(w, m);
          if ack != ChunkAck(index, true) {
            return false, sent, skipped;
          }
          sent := sent + 1;
        }
        index := index + 1;
      }
      return true, sent, skipped;
    }

    /** Sends the file and reports what was sent and skipped; from a sound receiver it always arrives. */
    method SendFileWithTargetPath(w: World, s: Source, rx: FileReceiver) returns (ok: bool, sent: nat, skipped: nat)
      requires s.chunk == chunkSize && Sendable(w, s)
      modifies rx
      ensures Attempt(rx.View(), ok, sent, skipped) == SendFile(w, s, old(rx.View()))
      ensures ResumeInv(w, s, old(rx.View())) ==>
                ok && sent + skipped == Count(s) &&
                rx.placed == old(rx.placed)[TargetDest(w, s, old(rx.View())) := s.bytes]
    {
      ghost var start := rx.View();
      if ResumeInv(w, s, start) {
        AttemptFromInv(w, s, start);
      }
      hide Plan, Handle, ResumeInv, SendFrom, InitOf, CompleteOf, Count, Countable, ResumeState, TargetDest;
      var begun := rx.HandleInit(w, InitOf(w, s));
      if !begun.InitAck? {
        return false, 0, 0;
      }
      ok, sent, skipped := SendChunks(w, s, rx, begun.existing);
      if ok {
        var done := rx.HandleComplete(w, CompleteOf(w, s));
        ok := done == CompleteAck(true);
      }
    }
  }

  function Continued(a: Attempt, sent: nat, skipped: nat): (a': Attempt) {
    a.(sent := a.sent + sent, skipped := a.skipped + skipped)
  }
}
