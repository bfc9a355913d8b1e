/**
 What a suppression of a path does over a run, told from the steps: until it is over no raw event of the path is
 accepted and no firing of it emits anything, and from then on raw events are accepted again (watcher.rs).
 And which raw events are accepted at all.
 */
module Suppression {
  import opened Outcomes
  import opened Components
  import opened Debounce

  // ---------- one raw event ----------

  /** A raw event is accepted exactly if it is not ignored, not suppressed at the time, and under the folder's root. */
  lemma RawAcceptedIff(s: Watch, path: string, folder: string, now: nat)
    requires s.clock <= now
    ensures var t, key := Next(s, Raw(path, folder, now)), Watched(folder, path);
            var accepted := && !Ignored(path) && !(path in s.suppressed && now < s.suppressed[path])
                            && folder in s.folders && Under(s.folders[folder], path);
            && t.pending == (if accepted then s.pending[key := now + s.interval] else s.pending)
            && t.history == (if accepted then s.history + [Accepted(key, now)] else s.history)
            && t.folders == s.folders && t.clock == now
  {
    hide Ignored, Under;
  }

  /** Ignored are names that begin with "." or "~" or end in one of five extensions. */
  lemma IgnoredNames(dir: string, name: string)
    requires dir != "" && Ordinary(name)
    ensures Ignored(dir + "/" + name) <==>
              || name[0] == '.' || name[0] == '~'
              || (exists stem :: name == stem + ".tmp") || (exists stem :: name == stem + ".crdownload")
              || (exists stem :: name == stem + ".part") || (exists stem :: name == stem + ".swp")
              || (exists stem :: name == stem + ".bak")
  {
    PartsPush(dir, name);
    EndsWithIff(name, ".tmp");
    EndsWithIff(name, ".crdownload");
    EndsWithIff(name, ".part");
    EndsWithIff(name, ".swp");
    EndsWithIff(name, ".bak");
    hide Parts, EndsWith;
  }

  lemma EndsWithIff(name: string, suffix: string)
    ensures EndsWith(name, suffix) <==> exists stem :: name == stem + suffix
  {
    if EndsWith(name, suffix) {
      assert name == name[..|name| - |suffix|] + suffix;
    }
  }

  /** A folder takes what is below its root, and not what merely begins with the same letters. */
  lemma UnderComponents(dir: string, x: string, y: string, names: seq<string>)
    requires dir != "" && Ordinary(x) && Ordinary(y) && forall c :: c in names ==> Ordinary(c)
    ensures Under(dir + "/" + x, dir + "/" + Join([y] + names)) <==> x == y
  {
    hide Parts;
    PartsPush(dir, x);
    PartsUnder(dir, [y] + names);
    assert (Parts(dir) + ([y] + names))[..|Parts(dir)| + 1] == Parts(dir) + [y];
    if Under(dir + "/" + x, dir + "/" + Join([y] + names)) {
      assert (Parts(dir) + [x])[|Parts(dir)|] == (Parts(dir) + ([y] + names))[|Parts(dir)|];
    }
  }

  // ---------- a suppression over a run ----------

  /** The path is suppressed up to `end`, and not longer. */
  predicate HeldUntil(s: Watch, path: string, end: nat) {
    (s.clock < end ==> path in s.suppressed) && (path in s.suppressed ==> s.suppressed[path] == end)
  }

  predicate Renews(step: Step, path: string) {
    step.Suppress? && step.path == path
  }

  lemma StepKeepsHeld(s: Watch, step: Step, path: string, end: nat)
    requires HeldUntil(s, path, end) && !Renews(step, path)
    ensures HeldUntil(Next(s, step), path, end)
  {
    hide Ignored, Under, RelativeOf, ChangeFor;
  }

  lemma {:induction false} RunKeepsHeld(s: Watch, steps: seq<Step>, path: string, end: nat)
    requires HeldUntil(s, path, end) && forall step :: step in steps ==> !Renews(step, path)
    ensures HeldUntil(Run(s, steps), path, end)
  {
    hide Next, HeldUntil;
    if steps != [] {
      RunKeepsHeld(s, steps[..|steps| - 1], path, end);
      StepKeepsHeld(Run(s, steps[..|steps| - 1]), steps[|steps| - 1], path, end);
    }
  }

  lemma {:induction false} RunInTwo(s: Watch, a: seq<Step>, b: seq<Step>)
    ensures Run(s, a + b) == Run(Run(s, a), b)
    decreases |b|
  {
    hide Next;
    if b == [] {
      assert a + b == a;
    } else {
      assert (a + b)[..|a + b| - 1] == a + b[..|b| - 1];
      RunInTwo(s, a, b[..|b| - 1]);
    }
  }

  lemma HeldInRun(interval: nat, before: seq<Step>, path: string, duration: nat, at: nat, between: seq<Step>)
    requires Run(Start(interval), before).clock <= at && forall step :: step in between ==> !Renews(step, path)
    ensures HeldUntil(Run(Start(interval), before + [Suppress(path, duration, at)] + between), path, at + duration)
  {
    var s := Run(Start(interval), before);
    var now := [Suppress(path, duration, at)];
    RunInTwo(Start(interval), before + now, between);
    RunInTwo(Start(interval), before, now);
    assert now[..0] == [] && Run(s, now) == Next(s, now[0]);
    RunKeepsHeld(Next(s, now[0]), between, path, at + duration);
  }

  /**
   After a suppression, and as long as the path is not suppressed anew: before it is over no raw event of the path is
   accepted, whatever folder would take it, and a firing of the path emits nothing.
   */
  lemma SuppressedUntilTheEnd(interval: nat, before: seq<Step>, path: string, duration: nat, at: nat,
                              between: seq<Step>,
                              folder: string, now: nat, disk: Disk)
    requires Run(Start(interval), before).clock <= at && forall step :: step in between ==> !Renews(step, path)
    requires var s := Run(Start(interval), before + [Suppress(path, duration, at)] + between);
             s.clock <= now < at + duration
    ensures var s := Run(Start(interval), before + [Suppress(path, duration, at)] + between);
            var key, raw := Watched(folder, path), Next(s, Raw(path, folder, now));
            var fired := Next(s, Fire(key, now, disk));
            && raw.pending == s.pending && raw.history == s.history
            && (key in s.pending && s.pending[key] <= now ==> fired.history == s.history + [Fired(key, now, None)])
  {
    hide Run, Ignored, Under, RelativeOf, ChangeFor;
    HeldInRun(interval, before, path, duration, at, between);
  }

  /** From its end on a raw event of the path is accepted, if it is not ignored and lies under the folder's root. */
  lemma AcceptedFromTheEnd(interval: nat, before: seq<Step>, path: string, duration: nat, at: nat, between: seq<Step>,
                           folder: string, now: nat)
    requires Run(Start(interval), before).clock <= at && forall step :: step in between ==> !Renews(step, path)
    requires var s := Run(Start(interval), before + [Suppress(path, duration, at)] + between);
             && s.clock <= now && at + duration <= now && !Ignored(path)
             && folder in s.folders && Under(s.folders[folder], path)
    ensures var s := Run(Start(interval), before + [Suppress(path, duration, at)] + between);
            var key := Watched(folder, path);
            var raw := Next(s, Raw(path, folder, now));
            raw.pending == s.pending[key := now + interval] && raw.history == s.history + [Accepted(key, now)]
  {
    hide Run, Ignored, Under, Inv, Next;
    var steps := before + [Suppress(path, duration, at)] + between;
    HeldInRun(interval, before, path, duration, at, between);
    ReachableInv(interval, steps);
    RawAcceptedIff(Run(Start(interval), steps), path, folder, now);
  }
}
