/**
 The delta protocol of one folder between a consumer and one peer, as a machine whose steps may
 interleave in any way: triggers, the in-flight guard, requests, answers, time-outs, answers that
 arrive after their round gave up, new connections, and the peer's log growing meanwhile
 (coordinator.rs `reconcile_with_peer` and `do_reconcile`, db.rs `get_events_since`).
 */
module Delta {
  import opened Catalogue

  datatype Phase = Entered | Waiting

  /** A manifest; `cut` tells that the limit dropped part of the tail. */
  datatype Reply = Reply(since: nat, events: seq<SyncEvent>, latest: nat, cut: bool)

  /**
   `rounds` are the reconciles inside the guard; `requests` and `replies` are what is under way on the
   connection. The last three fields are history: the events of all successful rounds in order, whether
   some round asked while an older request was unanswered, and whether a manifest taken in was cut short.
   */
  datatype Sync = Sync(
    log: seq<SyncEvent>, cursor: nat, guard: bool, rounds: map<nat, Phase>, requests: seq<nat>, replies: seq<Reply>,
    taken: seq<SyncEvent>, late: bool, cut: bool)

  datatype Step =
    | Trigger(w: nat)                    // reconcile_with_peer is called
    | Ask(w: nat, peerLatest: nat)       // do_reconcile up to sending the request
    | Answer                             // the peer serves the oldest request
    | TakeIn(w: nat, applied: bool)      // a manifest is received; all actions are applied, or one fails
    | GiveUp(w: nat)                     // no connection, send failure or time-out
    | Reconnect                          // a new connection with empty channels
    | Grow(e: SyncEvent)                 // the peer records an event, of any folder

  function Leave(s: Sync, w: nat): (s': Sync) {
    s.(rounds := s.rounds - {w}, guard := false)
  }

  function Serve(log: seq<SyncEvent>, folder: string, since: nat): (reply: Reply) {
    var tail := TailOf(log, folder, since);
    Reply(since, Take(tail, MANIFEST_LIMIT), LatestSeq(log, folder), |tail| > MANIFEST_LIMIT)
  }

  function Next(folder: string, s: Sync, step: Step): (s': Sync) {
    match step
    case Trigger(w) =>
      if s.guard || w in s.rounds then s else s.(guard := true, rounds := s.rounds[w := Entered])
    case Ask(w, peerLatest) =>
      if w !in s.rounds || s.rounds[w] != Entered then s
      else if s.cursor >= peerLatest then Leave(s, w)
      else s.(rounds := s.rounds[w := Waiting], requests := s.requests + [s.cursor],
              late := s.late || s.requests != [] || s.replies != [])
    case Answer =>
      if s.requests == [] then s
      else
        s.(requests := s.requests[1..], replies := s.replies + [Serve(s.log, folder, s.requests[0])])
    case TakeIn(w, applied) =>
      if w !in s.rounds || s.rounds[w] != Waiting || s.replies == [] then s
      else
        var reply, rest := s.replies[0], Leave(s, w).(replies := s.replies[1..]);
        if !applied then rest
        else rest.(cursor := reply.latest, taken := s.taken + reply.events, cut := s.cut || reply.cut)
    case GiveUp(w) => if w in s.rounds then Leave(s, w) else s
    case Reconnect => s.(requests := [], replies := [])
    case Grow(e) => s.(log := s.log + [e.(seqNo := |s.log| + 1)])
  }

  function Run(folder: string, s: Sync, steps: seq<Step>): (s': Sync) {
    if steps == [] then s else Next(folder, Run(folder, s, steps[..|steps| - 1]), steps[|steps| - 1])
  }

  const START := Sync([], 0, false, map[], [], [], [], false, false)

  // ---------- the folder's part of the log ----------

  ghost function OnlyFolder(s: seq<SyncEvent>, folder: string): (part: seq<SyncEvent>) {
    if s == [] then []
    else OnlyFolder(s[..|s| - 1], folder) + if s[|s| - 1].folder == folder then [s[|s| - 1]] else []
  }

  ghost predicate Numbers(log: seq<SyncEvent>) {
    forall i :: 0 <= i < |log| ==> log[i].seqNo == i + 1
  }

  lemma {:induction false} OnlyFolderSplit(a: seq<SyncEvent>, b: seq<SyncEvent>, folder: string)
    ensures OnlyFolder(a + b, folder) == OnlyFolder(a, folder) + OnlyFolder(b, folder)
  {
    if b == [] {
      assert a + b == a;
    } else {
      var n := |b| - 1;
      OnlyFolderSplit(a, b[..n], folder);
      assert (a + b)[..|a + b| - 1] == a + b[..n];
    }
  }

  lemma {:induction false} TailIsFolderPart(log: seq<SyncEvent>, folder: string, since: nat)
    requires Numbers(log) && since <= |log|
    ensures TailOf(log, folder, since) == OnlyFolder(log[since..], folder)
  {
    var n := |log| - 1;
    if since < |log| {
      var before, rest := log[..n], log[since..];
      TailIsFolderPart(before, folder, since);
      assert rest[..|rest| - 1] == before[since..];
    } else {
      NothingBeyond(log, folder, since);
    }
  }

  lemma {:induction false} NothingBeyond(log: seq<SyncEvent>, folder: string, since: nat)
    requires Numbers(log) && |log| <= since
    ensures TailOf(log, folder, since) == []
  {
    if log != [] {
      NothingBeyond(log[..|log| - 1], folder, since);
    }
  }

  lemma {:induction false} LatestIsLast(log: seq<SyncEvent>, folder: string)
    requires Numbers(log)
    ensures LatestSeq(log, folder) <= |log|
    ensures OnlyFolder(log[LatestSeq(log, folder)..], folder) == []
  {
    if log != [] {
      var n, latest := |log| - 1, LatestSeq(log, folder);
      LatestIsLast(log[..n], folder);
      if latest <= n {
        assert log[latest..][..n - latest] == log[..n][latest..];
      }
    }
  }

  lemma ServedPart(log: seq<SyncEvent>, folder: string, since: nat)
    requires Numbers(log) && since <= LatestSeq(log, folder)
    ensures LatestSeq(log, folder) <= |log|
    ensures TailOf(log, folder, since) == OnlyFolder(log[since..LatestSeq(log, folder)], folder)
  {
    var latest := LatestSeq(log, folder);
    LatestIsLast(log, folder);
    TailIsFolderPart(log, folder, since);
    OnlyFolderSplit(log[since..latest], log[latest..], folder);
    assert log[since..] == log[since..latest] + log[latest..];
  }

  // ---------- repeats ----------

  /** The sequence with every element at its first place only. */
  ghost function Firsts(s: seq<SyncEvent>): (firsts: seq<SyncEvent>)
    ensures forall e :: e in firsts <==> e in s
  {
    if s == [] then []
    else
      var front, last := s[..|s| - 1], s[|s| - 1];
      assert s == front + [last];
      Firsts(front) + if last in front then [] else [last]
  }

  ghost predicate NoRepeats(s: seq<SyncEvent>) {
    forall i, j :: 0 <= i < j < |s| ==> s[i] != s[j]
  }

  lemma {:induction false} FirstsIsAllIff(s: seq<SyncEvent>)
    ensures |Firsts(s)| <= |s|
    ensures Firsts(s) == s <==> NoRepeats(s)
  {
    if s != [] {
      var front, last := s[..|s| - 1], s[|s| - 1];
      FirstsIsAllIff(front);
      if last !in front && Firsts(s) == s {
        assert Firsts(s)[..|s| - 1] == Firsts(front);
      }
    }
  }

  lemma {:induction false} RepeatsAddNothing(a: seq<SyncEvent>, b: seq<SyncEvent>)
    requires forall e :: e in b ==> e in a
    ensures Firsts(a + b) == Firsts(a)
  {
    if b == [] {
      assert a + b == a;
    } else {
      var front, last := b[..|b| - 1], b[|b| - 1];
      assert (a + b)[..|a + b| - 1] == a + front;
      RepeatsAddNothing(a, front);
    }
  }

  lemma {:induction false} NewOnesAdd(a: seq<SyncEvent>, b: seq<SyncEvent>)
    requires NoRepeats(b) && forall e :: e in b ==> e !in a
    ensures Firsts(a + b) == Firsts(a) + b
  {
    if b == [] {
      assert a + b == a;
    } else {
      var front, last := b[..|b| - 1], b[|b| - 1];
      assert (a + b)[..|a + b| - 1] == a + front;
      NewOnesAdd(a, front);
      assert b == front + [last];
    }
  }

  /** The part of the log between two numbers is in order of its numbers. */
  lemma {:induction false} PartNumbers(log: seq<SyncEvent>, folder: string, a: nat, b: nat)
    requires Numbers(log) && a <= b <= |log|
    ensures var part := OnlyFolder(log[a..b], folder);
            (forall e :: e in part ==> a < e.seqNo <= b) && NoRepeats(part)
    decreases b - a
  {
    if a < b {
      PartNumbers(log, folder, a, b - 1);
      assert log[a..b][..b - 1 - a] == log[a..b - 1];
    }
  }

  // ---------- the invariant ----------

  /** The reply is the folder's part between its two numbers, cut at the limit. */
  ghost predicate Truthful(log: seq<SyncEvent>, folder: string, r: Reply) {
    r.since <= r.latest <= |log| &&
    var part := OnlyFolder(log[r.since..r.latest], folder);
    r.events <= part && |r.events| == (if |part| < 500 then |part| else 500) && (r.cut <==> |part| > 500)
  }

  ghost predicate OneRound(s: Sync) {
    if s.guard then exists w :: s.rounds.Keys == {w} else s.rounds == map[]
  }

  ghost predicate Ordered(s: Sync, folder: string) {
    (forall i :: 0 <= i < |s.requests| ==> s.requests[i] <= s.cursor) &&
    (forall i :: 0 <= i < |s.replies| ==>
      Truthful(s.log, folder, s.replies[i]) &&
        s.replies[i].since <= s.cursor <= s.replies[i].latest <= LatestSeq(s.log, folder)) &&
    (forall i, j :: 0 <= i < j < |s.replies| ==> s.replies[i].latest <= s.replies[j].latest)
  }

  /** Without its repeats, what was taken in is the folder's log up to the cursor. */
  ghost predicate Covers(s: Sync, folder: string)
    requires s.cursor <= |s.log|
  {
    Firsts(s.taken) == OnlyFolder(s.log[..s.cursor], folder)
  }

  /** While no round asked over an older request, what is under way starts at the cursor. */
  ghost predicate Prompt(s: Sync) {
    |s.requests| + |s.replies| <= 1 &&
    (s.requests != [] ==> s.requests[0] == s.cursor) && (s.replies != [] ==> s.replies[0].since == s.cursor)
  }

  ghost predicate SyncInv(folder: string, s: Sync) {
    Numbers(s.log) && s.cursor <= LatestSeq(s.log, folder) && s.cursor <= |s.log| &&
    OneRound(s) && Ordered(s, folder) && (!s.cut ==> Covers(s, folder)) && (!s.late ==> Prompt(s))
  }

  lemma AnswerKeepsInv(folder: string, s: Sync)
    requires SyncInv(folder, s)
    ensures SyncInv(folder, Next(folder, s, Answer))
  {
    hide OnlyFolder, Firsts, LatestSeq;
    if s.requests != [] {
      ServedPart(s.log, folder, s.requests[0]);
      assert Truthful(s.log, folder, Serve(s.log, folder, s.requests[0]));
    }
  }

  lemma LogGrows(folder: string, log: seq<SyncEvent>, x: SyncEvent, r: Reply)
    requires r.since <= r.latest <= |log|
    ensures Truthful(log, folder, r) <==> Truthful(log + [x], folder, r)
  {
    assert (log + [x])[r.since..r.latest] == log[r.since..r.latest];
  }

  lemma LatestGrows(folder: string, log: seq<SyncEvent>, x: SyncEvent)
    ensures LatestSeq(log, folder) <= LatestSeq(log + [x], folder)
  {
    assert (log + [x])[..|log|] == log;
  }

  lemma HistoryGrows(folder: string, s: Sync, t: Sync)
    requires s.cursor <= |s.log| && s.log <= t.log && t == s.(log := t.log)
    ensures Covers(s, folder) <==> Covers(t, folder)
  {
    assert s.log[..s.cursor] == t.log[..s.cursor];
  }

  lemma GrowKeepsInv(folder: string, s: Sync, e: SyncEvent)
    requires SyncInv(folder, s)
    ensures SyncInv(folder, Next(folder, s, Grow(e)))
  {
    hide OnlyFolder, Truthful, LatestSeq, Covers;
    var s', x := Next(folder, s, Grow(e)), e.(seqNo := |s.log| + 1);
    LatestGrows(folder, s.log, x);
    HistoryGrows(folder, s, s');
    forall i | 0 <= i < |s.replies| ensures Truthful(s'.log, folder, s.replies[i]) {
      assert Truthful(s.log, folder, s.replies[i]);
      LatestIsLast(s.log, folder);
      LogGrows(folder, s.log, x, s.replies[i]);
    }
  }

  lemma PartSplit(log: seq<SyncEvent>, a: nat, b: nat, folder: string)
    requires a <= b <= |log|
    ensures OnlyFolder(log[..b], folder) == OnlyFolder(log[..a], folder) + OnlyFolder(log[a..b], folder)
  {
    OnlyFolderSplit(log[..a], log[a..b], folder);
    assert log[..a] + log[a..b] == log[..b];
  }

  /** A manifest repeats what lies between its first number and the cursor, and brings what lies after. */
  lemma ReplyParts(folder: string, s: Sync, r: Reply)
    requires s.cursor <= |s.log| && Truthful(s.log, folder, r) && !r.cut && r.since <= s.cursor <= r.latest
    ensures r.events == OnlyFolder(s.log[r.since..s.cursor], folder) + OnlyFolder(s.log[s.cursor..r.latest], folder)
    ensures Covers(s, folder) ==> forall e :: e in OnlyFolder(s.log[r.since..s.cursor], folder) ==> e in s.taken
  {
    OnlyFolderSplit(s.log[r.since..s.cursor], s.log[s.cursor..r.latest], folder);
    assert s.log[r.since..r.latest] == s.log[r.since..s.cursor] + s.log[s.cursor..r.latest];
    PartSplit(s.log, r.since, s.cursor, folder);
    hide OnlyFolder;
    if Covers(s, folder) {
      forall e | e in OnlyFolder(s.log[r.since..s.cursor], folder) ensures e in s.taken {
        assert e in Firsts(s.taken);
      }
    }
  }

  lemma TakenCovers(folder: string, s: Sync, r: Reply)
    requires Numbers(s.log) && s.cursor <= |s.log| && Covers(s, folder) && Truthful(s.log, folder, r) && !r.cut
    requires r.since <= s.cursor <= r.latest
    ensures Covers(s.(cursor := r.latest, taken := s.taken + r.events), folder)
  {
    hide OnlyFolder, Firsts;
    ReplyParts(folder, s, r);
    var again, news := OnlyFolder(s.log[r.since..s.cursor], folder), OnlyFolder(s.log[s.cursor..r.latest], folder);
    PartNumbers(s.log, folder, 0, s.cursor);
    PartNumbers(s.log, folder, s.cursor, r.latest);
    assert s.log[0..s.cursor] == s.log[..s.cursor];
    RepeatsAddNothing(s.taken, again);
    forall e | e in news ensures e !in s.taken + again {
      assert e in s.taken <==> e in Firsts(s.taken);
    }
    NewOnesAdd(s.taken + again, news);
    assert s.taken + r.events == s.taken + again + news;
    PartSplit(s.log, s.cursor, r.latest, folder);
  }

  lemma TakeInKeepsInv(folder: string, s: Sync, w: nat, applied: bool)
    requires SyncInv(folder, s)
    ensures SyncInv(folder, Next(folder, s, TakeIn(w, applied)))
  {
    hide OnlyFolder, Truthful, LatestSeq, Covers;
    if w in s.rounds && s.rounds[w] == Waiting && s.replies != [] {
      var s' := Next(folder, s, TakeIn(w, applied));
      var r := s.replies[0];
      assert s'.rounds == map[];
      LatestIsLast(s.log, folder);
      var same := s.(cursor := s'.cursor, taken := s'.taken, cut := s'.cut);
      if applied {
        if !s'.cut {
          TakenCovers(folder, s, r);
        }
      }
      SameHistory(folder, same, s');
      if !applied {
        SameHistory(folder, s, s');
      }
    }
  }

  lemma SameHistory(folder: string, s: Sync, t: Sync)
    requires s.log == t.log && s.cursor == t.cursor <= |s.log| && s.taken == t.taken && s.cut == t.cut
    ensures Covers(s, folder) <==> Covers(t, folder)
  {}

  lemma NextKeepsInv(folder: string, s: Sync, step: Step)
    requires SyncInv(folder, s)
    ensures SyncInv(folder, Next(folder, s, step))
  {
    match step
    case Answer => AnswerKeepsInv(folder, s);
    case Grow(e) => GrowKeepsInv(folder, s, e);
    case TakeIn(w, applied) => TakeInKeepsInv(folder, s, w, applied);
    case Trigger(w) => RoundSteps(folder, s, step);
    case Ask(w, _) => RoundSteps(folder, s, step);
    case GiveUp(w) => RoundSteps(folder, s, step);
    case Reconnect =>
  }

  lemma RoundSteps(folder: string, s: Sync, step: Step)
    requires SyncInv(folder, s) && (step.Trigger? || step.Ask? || step.GiveUp?)
    ensures SyncInv(folder, Next(folder, s, step))
  {
    hide OnlyFolder, Firsts, Truthful, LatestSeq;
    var s' := Next(folder, s, step);
    if s'.guard && !s.guard {
      assert s'.rounds.Keys == {step.w};
    } else if s'.guard {
      assert s'.rounds.Keys == s.rounds.Keys;
    } else if s.guard {
      assert s'.rounds == map[];
    }
  }

  lemma {:induction false} ReachableInv(folder: string, steps: seq<Step>)
    ensures SyncInv(folder, Run(folder, START, steps))
  {
    if steps != [] {
      ReachableInv(folder, steps[..|steps| - 1]);
      NextKeepsInv(folder, Run(folder, START, steps[..|steps| - 1]), steps[|steps| - 1]);
    }
  }

  // ---------- one round ----------

  /** A trigger enters only a free guard; a round inside it asks from the cursor on, if it is below the number. */
  lemma RoundBegins(folder: string, s: Sync, w: nat, number: nat)
    requires SyncInv(folder, s)
    ensures var entered := Next(folder, s, Trigger(w));
            && (s.guard ==> entered == s)
            && (!s.guard ==> entered.guard && entered.rounds == map[w := Entered])
    ensures w in s.rounds && s.rounds[w] == Entered ==>
              var asked := Next(folder, s, Ask(w, number));
              if number <= s.cursor then !asked.guard && asked.rounds == map[] && asked.requests == s.requests
              else asked.guard && asked.rounds == map[w := Waiting] && asked.requests == s.requests + [s.cursor]
  {
    hide OnlyFolder, Firsts, Truthful, LatestSeq, Covers;
    if w in s.rounds {
      assert s.rounds.Keys == {w};
    }
  }

  /** A round that gives up frees the guard and changes neither cursor nor what was taken. */
  lemma RoundGivesUp(folder: string, s: Sync, w: nat)
    requires SyncInv(folder, s) && w in s.rounds
    ensures var left := Next(folder, s, GiveUp(w));
            !left.guard && left.rounds == map[] && left.cursor == s.cursor && left.taken == s.taken && left.log == s.log
  {
    hide OnlyFolder, Firsts, Truthful, LatestSeq, Covers;
    assert s.rounds.Keys == {w};
  }

  /** A manifest moves the cursor to its number if all went through, and frees the guard in either case. */
  lemma RoundTakesIn(folder: string, s: Sync, w: nat, applied: bool)
    requires SyncInv(folder, s) && w in s.rounds && s.rounds[w] == Waiting && s.replies != []
    ensures var after, reply := Next(folder, s, TakeIn(w, applied)), s.replies[0];
            && !after.guard && after.rounds == map[] && after.replies == s.replies[1..] && after.log == s.log
            && after.cursor == (if applied then reply.latest else s.cursor)
            && after.taken == if applied then s.taken + reply.events else s.taken
  {
    hide OnlyFolder, Firsts, Truthful, LatestSeq, Covers;
    assert s.rounds.Keys == {w};
  }

  /** A new connection has empty channels, the peer's log grows by one numbered event, and nothing else changes. */
  lemma Surroundings(folder: string, s: Sync, e: SyncEvent)
    ensures Next(folder, s, Reconnect) == s.(requests := [], replies := [])
    ensures var grown := Next(folder, s, Grow(e));
            && grown == s.(log := grown.log) && |grown.log| == |s.log| + 1 && s.log <= grown.log
            && grown.log[|s.log|] == e.(seqNo := |s.log| + 1)
  {}

  /**
   An undisturbed round brings the next events of the folder, at most 500, and the cursor to the folder's latest
   number.
   */
  lemma RoundCatchesUp(folder: string, s: Sync, w: nat, number: nat)
    requires SyncInv(folder, s) && !s.guard && s.requests == [] && s.replies == [] && s.cursor < number
    ensures var asked := Next(folder, Next(folder, s, Trigger(w)), Ask(w, number));
            var after := Next(folder, Next(folder, asked, Answer), TakeIn(w, true));
            var part := OnlyFolder(s.log[s.cursor..], folder);
            && after.cursor == LatestSeq(s.log, folder) && !after.guard && after.log == s.log
            && exists brought :: after.taken == s.taken + brought && brought <= part &&
                                 |brought| == if |part| < 500 then |part| else 500
  {
    hide OnlyFolder, Firsts, Truthful, LatestSeq, Covers, TailOf;
    TailIsFolderPart(s.log, folder, s.cursor);
    var asked := Next(folder, Next(folder, s, Trigger(w)), Ask(w, number));
    assert asked.requests == [s.cursor] && asked.rounds == map[w := Waiting];
    var answered := Next(folder, asked, Answer);
    assert answered.replies == [Serve(s.log, folder, s.cursor)];
    assert Next(folder, answered, TakeIn(w, true)).taken == s.taken + Serve(s.log, folder, s.cursor).events;
  }

  // ---------- the theorems ----------

  /** However triggers interleave, at most one round is inside the guard. */
  lemma AtMostOneRound(folder: string, steps: seq<Step>, v: nat, w: nat)
    requires v in Run(folder, START, steps).rounds && w in Run(folder, START, steps).rounds
    ensures v == w
  {
    ReachableInv(folder, steps);
  }

  lemma CursorAfter(folder: string, s: Sync, step: Step)
    requires SyncInv(folder, s)
    ensures s.cursor <= Next(folder, s, step).cursor
  {}

  /** The cursor never goes back, from any point of a run to any later one. */
  lemma {:induction false} CursorNeverGoesBack(folder: string, steps: seq<Step>, n: nat)
    requires n <= |steps|
    ensures Run(folder, START, steps[..n]).cursor <= Run(folder, START, steps).cursor
  {
    hide SyncInv, Next;
    if n == |steps| {
      assert steps[..n] == steps;
    } else {
      var m := |steps| - 1;
      CursorNeverGoesBack(folder, steps[..m], n);
      assert steps[..m][..n] == steps[..n];
      ReachableInv(folder, steps[..m]);
      CursorAfter(folder, Run(folder, START, steps[..m]), steps[m]);
    }
  }

  /** Even with answers that come after their round gave up, nothing is skipped. */
  lemma NothingIsSkipped(folder: string, steps: seq<Step>, e: SyncEvent)
    requires var s := Run(folder, START, steps);
             !s.cut && s.cursor <= |s.log| && e in OnlyFolder(s.log[..s.cursor], folder)
    ensures e in Run(folder, START, steps).taken
  {
    ReachableInv(folder, steps);
  }
}
