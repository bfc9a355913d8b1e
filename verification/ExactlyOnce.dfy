/**
 Exactly-once delivery in the delta protocol: when it holds, for every run. What breaks it is an answer that is
 taken in although the cursor has meanwhile moved past folder events that it covers
 (coordinator.rs `do_reconcile`, db.rs `get_events_since`).
 */
module ExactlyOnce {
  import opened Catalogue
  import opened Delta

  /** The step takes in an answer that starts behind the cursor, with events of the folder in between. */
  ghost predicate Stale(folder: string, s: Sync, step: Step) {
    Accepts(s, step) && s.replies[0].since <= s.cursor <= |s.log| &&
    OnlyFolder(s.log[s.replies[0].since..s.cursor], folder) != []
  }

  predicate Accepts(s: Sync, step: Step) {
    step.TakeIn? && step.applied && step.w in s.rounds && s.rounds[step.w] == Waiting && s.replies != []
  }

  ghost predicate EverStale(folder: string, steps: seq<Step>) {
    steps != [] &&
    (EverStale(folder, steps[..|steps| - 1]) ||
     Stale(folder, Run(folder, START, steps[..|steps| - 1]), steps[|steps| - 1]))
  }

  // ---------- while no answer was stale ----------

  /** What was taken in is the folder's log up to the cursor, or less of it if an answer was cut. */
  ghost predicate Whole(folder: string, s: Sync)
    requires s.cursor <= |s.log|
  {
    var part := OnlyFolder(s.log[..s.cursor], folder);
    if s.cut then |s.taken| < |part| else s.taken == part
  }

  /** The first event of the folder after `n`, if the cursor is past it, was taken in. */
  ghost predicate Marked(folder: string, s: Sync, n: nat) {
    n <= s.cursor <= |s.log| &&
    var part := OnlyFolder(s.log[n..s.cursor], folder);
    part != [] ==> part[0] in s.taken
  }

  ghost predicate AllMarked(folder: string, s: Sync) {
    (forall n :: n in s.requests ==> Marked(folder, s, n)) &&
    (forall r :: r in s.replies ==> Marked(folder, s, r.since))
  }

  ghost predicate SoFar(folder: string, s: Sync, stale: bool)
    requires s.cursor <= |s.log|
  {
    if stale then !NoRepeats(s.taken) else Whole(folder, s) && AllMarked(folder, s)
  }

  lemma RepeatsStay(a: seq<SyncEvent>, b: seq<SyncEvent>)
    requires !NoRepeats(a)
    ensures !NoRepeats(a + b)
  {
    var i, j :| 0 <= i < j < |a| && a[i] == a[j];
    assert (a + b)[i] == (a + b)[j];
  }

  lemma OldEventRepeats(a: seq<SyncEvent>, b: seq<SyncEvent>)
    requires b != [] && b[0] in a
    ensures !NoRepeats(a + b)
  {
    var i :| 0 <= i < |a| && a[i] == b[0];
    assert (a + b)[i] == (a + b)[|a|];
  }

  /** A stale answer begins with an event that was taken in before. */
  lemma StaleRepeats(folder: string, s: Sync, step: Step)
    requires SyncInv(folder, s) && AllMarked(folder, s) && Stale(folder, s, step)
    ensures !NoRepeats(Next(folder, s, step).taken)
  {
    hide OnlyFolder, LatestSeq, OneRound, Prompt, Covers, NoRepeats;
    var r := s.replies[0];
    assert Truthful(s.log, folder, r) && r.since <= s.cursor <= r.latest;
    assert Marked(folder, s, r.since);
    BetweenSplit(s.log, r.since, s.cursor, r.latest, folder);
    OldEventRepeats(s.taken, r.events);
  }

  lemma BetweenSplit(log: seq<SyncEvent>, a: nat, b: nat, c: nat, folder: string)
    requires a <= b <= c <= |log|
    ensures OnlyFolder(log[a..c], folder) == OnlyFolder(log[a..b], folder) + OnlyFolder(log[b..c], folder)
  {
    OnlyFolderSplit(log[a..b], log[b..c], folder);
    assert log[a..c] == log[a..b] + log[b..c];
  }

  lemma PromptAnswerIsWhole(folder: string, s: Sync, step: Step)
    requires SyncInv(folder, s) && Whole(folder, s) && Accepts(s, step) && !Stale(folder, s, step)
    ensures Next(folder, s, step).cursor <= |s.log| && Whole(folder, Next(folder, s, step))
  {
    hide OnlyFolder, LatestSeq, OneRound, Prompt, Covers;
    var r := s.replies[0];
    assert Truthful(s.log, folder, r) && r.since <= s.cursor <= r.latest;
    BetweenSplit(s.log, r.since, s.cursor, r.latest, folder);
    PartSplit(s.log, s.cursor, r.latest, folder);
  }

  lemma PromptAnswerMarks(folder: string, s: Sync, step: Step, n: nat)
    requires SyncInv(folder, s) && Marked(folder, s, n) && Accepts(s, step) && !Stale(folder, s, step)
    ensures Marked(folder, Next(folder, s, step), n)
  {
    hide OnlyFolder, LatestSeq, OneRound, Prompt, Covers;
    var r := s.replies[0];
    assert Truthful(s.log, folder, r) && r.since <= s.cursor <= r.latest;
    BetweenSplit(s.log, r.since, s.cursor, r.latest, folder);
    BetweenSplit(s.log, n, s.cursor, r.latest, folder);
    var olds, news := OnlyFolder(s.log[n..s.cursor], folder), OnlyFolder(s.log[s.cursor..r.latest], folder);
    if olds == [] && news != [] {
      assert r.events[0] == news[0];
    }
  }

  lemma AcceptKeepsSoFar(folder: string, s: Sync, step: Step)
    requires SyncInv(folder, s) && SyncInv(folder, Next(folder, s, step)) && SoFar(folder, s, false) && Accepts(s, step)
    ensures SoFar(folder, Next(folder, s, step), Stale(folder, s, step))
  {
    hide SyncInv, Whole, Marked, NoRepeats, Stale;
    var s' := Next(folder, s, step);
    if Stale(folder, s, step) {
      StaleRepeats(folder, s, step);
    } else {
      PromptAnswerIsWhole(folder, s, step);
      forall n | n in s.requests ensures Marked(folder, s', n) {
        PromptAnswerMarks(folder, s, step, n);
      }
      forall r | r in s'.replies ensures Marked(folder, s', r.since) {
        assert r in s.replies;
        PromptAnswerMarks(folder, s, step, r.since);
      }
    }
  }

  lemma SameMarks(folder: string, s: Sync, t: Sync, n: nat)
    requires Marked(folder, s, n) && s.log <= t.log && t.cursor == s.cursor && t.taken == s.taken
    ensures Marked(folder, t, n)
  {
    assert t.log[n..s.cursor] == s.log[n..s.cursor];
  }

  lemma NewRequestIsMarked(folder: string, s: Sync)
    requires s.cursor <= |s.log|
    ensures Marked(folder, s, s.cursor)
  {
    assert s.log[s.cursor..s.cursor] == [];
  }

  /** Steps that take nothing in change neither what was taken nor what is marked. */
  lemma OtherStepKeepsSoFar(folder: string, s: Sync, step: Step)
    requires s.cursor <= |s.log| && SoFar(folder, s, false) && !Accepts(s, step)
    ensures Next(folder, s, step).cursor <= |Next(folder, s, step).log|
    ensures SoFar(folder, Next(folder, s, step), false)
  {
    hide OnlyFolder, Marked, Serve;
    var s' := Next(folder, s, step);
    assert s'.cursor == s.cursor && s'.taken == s.taken && s'.cut == s.cut && s.log <= s'.log;
    assert s'.log[..s.cursor] == s.log[..s.cursor];
    NewRequestIsMarked(folder, s);
    forall n | Marked(folder, s, n) ensures Marked(folder, s', n) {
      SameMarks(folder, s, s', n);
    }
    forall r | r in s'.replies ensures Marked(folder, s', r.since) {
      if r !in s.replies {
        ServedSince(s.log, folder, s.requests[0]);
        assert s.requests[0] in s.requests;
      }
    }
  }

  lemma ServedSince(log: seq<SyncEvent>, folder: string, since: nat)
    ensures Serve(log, folder, since).since == since
  {}

  lemma {:induction false} RunSoFar(folder: string, steps: seq<Step>)
    ensures SyncInv(folder, Run(folder, START, steps))
    ensures SoFar(folder, Run(folder, START, steps), EverStale(folder, steps))
  {
    hide SyncInv, Whole, AllMarked, NoRepeats, Next, Stale, Accepts;
    ReachableInv(folder, steps);
    if steps == [] {
      StartSoFar(folder);
    } else {
      var front, last := steps[..|steps| - 1], steps[|steps| - 1];
      RunSoFar(folder, front);
      StepSoFar(folder, Run(folder, START, front), last, EverStale(folder, front));
    }
  }

  lemma StepSoFar(folder: string, s: Sync, step: Step, stale: bool)
    requires SyncInv(folder, s) && SoFar(folder, s, stale) && SyncInv(folder, Next(folder, s, step))
    ensures SoFar(folder, Next(folder, s, step), stale || Stale(folder, s, step))
  {
    hide NoRepeats, Whole, AllMarked, OnlyFolder, SyncInv;
    InvBounds(folder, s);
    InvBounds(folder, Next(folder, s, step));
    if stale {
      var more := TakenGrows(folder, s, step);
      RepeatsStay(s.taken, more);
    } else if Accepts(s, step) {
      AcceptKeepsSoFar(folder, s, step);
    } else {
      OtherStepKeepsSoFar(folder, s, step);
    }
  }

  lemma InvBounds(folder: string, s: Sync)
    requires SyncInv(folder, s)
    ensures s.cursor <= |s.log|
  {}

  lemma TakenGrows(folder: string, s: Sync, step: Step) returns (more: seq<SyncEvent>)
    ensures Next(folder, s, step).taken == s.taken + more
  {
    hide Serve;
    more := if Accepts(s, step) then s.replies[0].events else [];
  }

  lemma StartSoFar(folder: string)
    ensures Run(folder, START, []) == START && SoFar(folder, START, false)
  {}

  // ---------- the theorems ----------

  /**
   Exactly-once delivery, in order, for every run of the protocol: the successful deltas add up to the folder's log up
   to the cursor, if and only if no answer that was taken in was cut at the limit or started behind the cursor with
   events of the folder in between.
   */
  lemma ExactlyOnceIff(folder: string, steps: seq<Step>)
    ensures var s := Run(folder, START, steps);
            && s.cursor <= |s.log|
            && (s.taken == OnlyFolder(s.log[..s.cursor], folder) <==> !s.cut && !EverStale(folder, steps))
  {
    hide EverStale;
    RunSoFar(folder, steps);
    var s := Run(folder, START, steps);
    InvBounds(folder, s);
    PartNumbers(s.log, folder, 0, s.cursor);
    assert s.log[0..s.cursor] == s.log[..s.cursor];
    hide OnlyFolder, Run;
  }

  lemma {:induction false} PromptIsNeverStale(folder: string, steps: seq<Step>)
    requires !Run(folder, START, steps).late
    ensures !EverStale(folder, steps)
  {
    hide OnlyFolder, Serve;
    if steps != [] {
      var front := steps[..|steps| - 1];
      var s := Run(folder, START, front);
      PromptIsNeverStale(folder, front);
      ReachableInv(folder, front);
      NewRequestIsMarked(folder, s);
      if s.replies != [] && s.replies[0].since == s.cursor {
        NothingBetween(s.log, s.cursor, folder);
      }
    }
  }

  lemma NothingBetween(log: seq<SyncEvent>, n: nat, folder: string)
    requires n <= |log|
    ensures OnlyFolder(log[n..n], folder) == []
  {}

  /** Without answers to rounds that gave up, exactly if none was cut. */
  lemma DeliveredExactlyOnceIff(folder: string, steps: seq<Step>)
    requires !Run(folder, START, steps).late
    ensures var s := Run(folder, START, steps);
            s.cursor <= |s.log| && (s.taken == OnlyFolder(s.log[..s.cursor], folder) <==> !s.cut)
  {
    hide Run, OnlyFolder;
    PromptIsNeverStale(folder, steps);
    ExactlyOnceIff(folder, steps);
  }

  /**
   As long as none was cut, what was taken in is the folder's log up to the cursor with nothing but repeats added, and
   there are repeats exactly if an answer was stale.
   */
  lemma OnlyRepeatsAreAdded(folder: string, steps: seq<Step>)
    requires !Run(folder, START, steps).cut
    ensures var s := Run(folder, START, steps);
            && s.cursor <= |s.log| && Firsts(s.taken) == OnlyFolder(s.log[..s.cursor], folder)
            && (NoRepeats(s.taken) <==> !EverStale(folder, steps))
  {
    hide EverStale, Run;
    ReachableInv(folder, steps);
    ExactlyOnceIff(folder, steps);
    FirstsIsAllIff(Run(folder, START, steps).taken);
    hide OnlyFolder, Firsts;
  }

  /** What a late answer does: it delivers again just the events between its first number and the cursor. */
  lemma LateAnswerRepeats(folder: string, steps: seq<Step>, w: nat)
    requires var s := Run(folder, START, steps);
             w in s.rounds && s.rounds[w] == Waiting && s.replies != [] && !s.cut && !s.replies[0].cut
    ensures var s := Run(folder, START, steps);
            var since, after := s.replies[0].since, Next(folder, s, TakeIn(w, true));
            && since <= s.cursor <= after.cursor <= |s.log|
            && after.taken == s.taken + OnlyFolder(s.log[since..s.cursor], folder)
                                      + OnlyFolder(s.log[s.cursor..after.cursor], folder)
            && forall e :: e in OnlyFolder(s.log[since..s.cursor], folder) ==> e in s.taken
  {
    hide OnlyFolder, Run, Firsts, LatestSeq, OneRound, Prompt;
    ReachableInv(folder, steps);
    var s := Run(folder, START, steps);
    LatestIsLast(s.log, folder);
    assert Truthful(s.log, folder, s.replies[0]);
    hide Truthful;
    ReplyParts(folder, s, s.replies[0]);
  }

  lemma RunMore(folder: string, steps: seq<Step>, step: Step)
    ensures Run(folder, START, steps + [step]) == Next(folder, Run(folder, START, steps), step)
  {
    assert (steps + [step])[..|steps|] == steps;
  }

  /** It does happen: a round gives up, the next one asks again, and both answers come. */
  lemma RepeatHappens(folder: string, e: SyncEvent) returns (steps: seq<Step>)
    requires e.folder == folder
    ensures Run(folder, START, steps).taken == [e.(seqNo := 1), e.(seqNo := 1)]
    ensures EverStale(folder, steps) && !Run(folder, START, steps).cut
  {
    hide Run, EverStale, OnlyFolder, Firsts;
    steps := TwoAnswers(folder, e);
    var taken := Run(folder, START, steps).taken;
    assert taken[0] == taken[1];
    OnlyRepeatsAreAdded(folder, steps);
  }

  lemma TwoAnswers(folder: string, e: SyncEvent) returns (steps: seq<Step>)
    requires e.folder == folder
    ensures Run(folder, START, steps).taken == [e.(seqNo := 1), e.(seqNo := 1)]
    ensures !Run(folder, START, steps).cut
  {
    hide Run, Serve;
    var x := e.(seqNo := 1);
    var asked := [Grow(e), Trigger(0), Ask(0, 1), GiveUp(0), Trigger(0), Ask(0, 1), Answer, Answer];
    var s := AskedTwice(folder, e, asked);
    steps := asked + [TakeIn(0, true)] + [Trigger(0)] + [Ask(0, 2)] + [TakeIn(0, true)];
    RunMore(folder, asked, TakeIn(0, true));
    RunMore(folder, asked + [TakeIn(0, true)], Trigger(0));
    RunMore(folder, asked + [TakeIn(0, true)] + [Trigger(0)], Ask(0, 2));
    RunMore(folder, asked + [TakeIn(0, true)] + [Trigger(0)] + [Ask(0, 2)], TakeIn(0, true));
    assert [x] + [x] == [x, x] && [] + [x] == [x];
  }

  lemma AskedTwice(folder: string, e: SyncEvent, steps: seq<Step>) returns (s: Sync)
    requires e.folder == folder
    requires steps == [Grow(e), Trigger(0), Ask(0, 1), GiveUp(0), Trigger(0), Ask(0, 1), Answer, Answer]
    ensures s == Run(folder, START, steps) && s.rounds == map[0 := Waiting] && s.guard && s.cursor == 0 && s.taken == []
    ensures !s.cut
    ensures s.replies == [Reply(0, [e.(seqNo := 1)], 1, false), Reply(0, [e.(seqNo := 1)], 1, false)] &&
            s.requests == []
  {
    hide Run, Serve;
    var x := e.(seqNo := 1);
    s := START;
    var done: seq<Step> := [];
    assert Run(folder, START, []) == START by { RunNothing(folder); }
    for i := 0 to |steps|
      invariant done == steps[..i] && s == Run(folder, START, done)
      invariant s.cursor == 0 && !s.cut && s.taken == [] && s.log == if i == 0 then [] else [x]
      invariant s.guard == (i == 2 || i == 3 || 5 <= i)
      invariant s.rounds == if i == 2 || i == 5 then map[0 := Entered] else if i == 3 || 6 <= i then map[0 := Waiting]
                else map[]
      invariant s.requests == if i == 3 || i == 4 || i == 5 || i == 7 then [0] else if i == 6 then [0, 0] else []
      invariant s.replies == if i == 7 then [Reply(0, [x], 1, false)]
                else if i == 8 then [Reply(0, [x], 1, false), Reply(0, [x], 1, false)] else []
    {
      RunMore(folder, done, steps[i]);
      ServedOne(folder, x);
      s := Next(folder, s, steps[i]);
      done := done + [steps[i]];
    }
    assert steps[..|steps|] == steps;
  }

  lemma RunNothing(folder: string)
    ensures Run(folder, START, []) == START
  {}

  lemma ServedOne(folder: string, x: SyncEvent)
    requires x.folder == folder && x.seqNo == 1
    ensures Serve([x], folder, 0) == Reply(0, [x], 1, false)
  {
    assert [x][..0] == [];
    assert TailOf([], folder, 0) == [] && LatestSeq([], folder) == 0;
    assert [] + [x] == [x];
  }
}
