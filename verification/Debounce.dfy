/**
 The file-system watcher's debouncer (watcher.rs): raw events restart a path's deadline, a deadline that
 has passed fires once, and suppressed paths stay silent. Paths are strings over '/'; which of
 several matching folders takes a raw event is left open (the code iterates a hash map).
 */
module Debounce {
  import opened Outcomes
  import opened Components

  datatype Watched = Watched(folder: string, path: string)

  datatype Disk = Missing | Directory | Unreadable | File(size: nat, hash: string)

  datatype Change = Upserted(folder: string, relative: string, size: nat, hash: string) |
    Deleted(folder: string, relative: string)

  /** What happened, in order: the history the theorems speak about. */
  datatype Mark =
    | Accepted(key: Watched, at: nat)
    | Fired(key: Watched, at: nat, out: Option<Change>)
    | Hushed(path: string, until: nat)

  datatype Watch = Watch(
    interval: nat, clock: nat, folders: map<string, string>, pending: map<Watched, nat>, suppressed: map<string, nat>,
    history: seq<Mark>)

  datatype Step =
    | Raw(path: string, folder: string, now: nat)
    | Fire(key: Watched, now: nat, disk: Disk)
    | Suppress(path: string, duration: nat, now: nat)
    | Register(folder: string, root: string)

  // ---------- paths ----------

  predicate EndsWith(s: string, suffix: string) {
    |suffix| <= |s| && s[|s| - |suffix|..] == suffix
  }

  /** Hidden and temporary files, by the last component if that is an ordinary name. */
  predicate Ignored(path: string) {
    var parts := Parts(path);
    parts != [] && Ordinary(parts[|parts| - 1]) &&
    var name := parts[|parts| - 1];
    name[0] == '.' || name[0] == '~' || EndsWith(name, ".tmp") || EndsWith(name, ".crdownload") ||
    EndsWith(name, ".part") || EndsWith(name, ".swp") || EndsWith(name, ".bak")
  }

  predicate Under(root: string, path: string) {
    Parts(root) <= Parts(path)
  }

  // ---------- steps ----------

  /** Suppressions that are over are forgotten. */
  function Purge(suppressed: map<string, nat>, now: nat): (left: map<string, nat>) {
    map p | p in suppressed && suppressed[p] > now :: suppressed[p]
  }

  function RelativeOf(folders: map<string, string>, key: Watched): (relative: Option<string>) {
    if key.folder in folders then Relative(folders[key.folder], key.path) else None
  }

  function ChangeFor(folders: map<string, string>, key: Watched, disk: Disk): (change: Option<Change>) {
    match RelativeOf(folders, key)
    case None => None
    case Some(relative) =>
      match disk
      case File(size, hash) => Some(Upserted(key.folder, relative, size, hash))
      case Missing => Some(Deleted(key.folder, relative))
      case _ => None
  }

  function Next(s: Watch, step: Step): (s': Watch) {
    match step
    case Raw(path, folder, now) =>
      if now < s.clock then s
      else if Ignored(path) then s.(clock := now)
      else
        var t := s.(clock := now, suppressed := Purge(s.suppressed, now));
        if path in t.suppressed || folder !in s.folders || !Under(s.folders[folder], path) then t
        else t.(pending := t.pending[Watched(folder, path) := now + s.interval],
                history := t.history + [Accepted(Watched(folder, path), now)])
    case Fire(key, now, disk) =>
      if now < s.clock || key !in s.pending || now < s.pending[key] then s
      else
        var t := s.(clock := now, pending := s.pending - {key},
                    suppressed := if RelativeOf(s.folders, key).Some? then Purge(s.suppressed, now) else s.suppressed);
        t.(history := t.history +
             [Fired(key, now, if key.path in t.suppressed then None else ChangeFor(s.folders, key, disk))])
    case Suppress(path, duration, now) =>
      if now < s.clock then s
      else s.(clock := now, suppressed := s.suppressed[path := now + duration],
              history := s.history + [Hushed(path, now + duration)])
    case Register(folder, root) => s.(folders := s.folders[folder := root])
  }

  function Run(s: Watch, steps: seq<Step>): (s': Watch) {
    if steps == [] then s else Next(Run(s, steps[..|steps| - 1]), steps[|steps| - 1])
  }

  function Start(interval: nat): (start: Watch) {
    Watch(interval, 0, map[], map[], map[], [])
  }

  // ---------- reading the history ----------

  /** A firing of a path with the group of accepted events it consumed. */
  datatype Group = Group(events: seq<nat>, at: nat, out: Option<Change>)

  /** The times of the path's accepted events since its last firing. */
  ghost function Waiting(h: seq<Mark>, key: Watched): (times: seq<nat>) {
    if h == [] then []
    else
      var before, m := Waiting(h[..|h| - 1], key), h[|h| - 1];
      match m
      case Accepted(k, at) => if k == key then before + [at] else before
      case Fired(k, _, _) => if k == key then [] else before
      case _ => before
  }

  ghost function Groups(h: seq<Mark>, key: Watched): (groups: seq<Group>) {
    if h == [] then []
    else
      var before, m := Groups(h[..|h| - 1], key), h[|h| - 1];
      if m.Fired? && m.key == key then before + [Group(Waiting(h[..|h| - 1], key), m.at, m.out)] else before
  }

  /** All accepted events of a path. */
  ghost function AcceptedOf(h: seq<Mark>, key: Watched): (times: seq<nat>) {
    if h == [] then []
    else
      var before, m := AcceptedOf(h[..|h| - 1], key), h[|h| - 1];
      if m.Accepted? && m.key == key then before + [m.at] else before
  }

  ghost function Joined(groups: seq<Group>): (times: seq<nat>) {
    if groups == [] then [] else Joined(groups[..|groups| - 1]) + groups[|groups| - 1].events
  }

  /** The latest word on how long a path is suppressed. */
  ghost function HushedUntil(h: seq<Mark>, path: string): (until: Option<nat>) {
    if h == [] then None
    else
      var m := h[|h| - 1];
      if m.Hushed? && m.path == path then Some(m.until) else HushedUntil(h[..|h| - 1], path)
  }

  // ---------- the invariant ----------

  ghost predicate Deadline(s: Watch, key: Watched) {
    var waiting := Waiting(s.history, key);
    (key in s.pending <==> waiting != []) &&
    (waiting != [] ==> s.pending[key] == waiting[|waiting| - 1] + s.interval)
  }

  ghost predicate Silence(s: Watch, path: string) {
    var hushed := HushedUntil(s.history, path);
    (path in s.suppressed ==> hushed == Some(s.suppressed[path])) &&
    (hushed.Some? && hushed.value > s.clock ==> path in s.suppressed)
  }

  ghost predicate GoodGroups(s: Watch, key: Watched) {
    var groups := Groups(s.history, key);
    Joined(groups) + Waiting(s.history, key) == AcceptedOf(s.history, key) &&
    forall i :: 0 <= i < |groups| ==>
      groups[i].events != [] && groups[i].at >= groups[i].events[|groups[i].events| - 1] + s.interval
  }

  /** A firing that emitted something was not under a suppression still running at the time. */
  ghost predicate QuietWhileHushed(h: seq<Mark>) {
    forall i :: 0 <= i < |h| && h[i].Fired? && h[i].out.Some? ==>
      HushedUntil(h[..i], h[i].key.path).None? || HushedUntil(h[..i], h[i].key.path).value <= h[i].at
  }

  ghost predicate Inv(s: Watch) {
    (forall key :: Deadline(s, key)) && (forall path :: Silence(s, path)) && (forall key :: GoodGroups(s, key)) &&
    QuietWhileHushed(s.history)
  }

  lemma AppendMark(h: seq<Mark>, m: Mark, key: Watched, path: string)
    ensures Waiting(h + [m], key) ==
              (if m.Accepted? && m.key == key then Waiting(h, key) + [m.at]
               else if m.Fired? && m.key == key then [] else Waiting(h, key))
    ensures Groups(h + [m], key) ==
              Groups(h, key) + (if m.Fired? && m.key == key then [Group(Waiting(h, key), m.at, m.out)] else [])
    ensures AcceptedOf(h + [m], key) == AcceptedOf(h, key) + (if m.Accepted? && m.key == key then [m.at] else [])
    ensures HushedUntil(h + [m], path) == if m.Hushed? && m.path == path then Some(m.until) else HushedUntil(h, path)
  {
    assert (h + [m])[..|h|] == h;
  }

  lemma QuietAppend(h: seq<Mark>, m: Mark)
    requires QuietWhileHushed(h)
    requires m.Fired? && m.out.Some? ==> HushedUntil(h, m.key.path).None? || HushedUntil(h, m.key.path).value <= m.at
    ensures QuietWhileHushed(h + [m])
  {
    var more := h + [m];
    forall i | 0 <= i < |more| && more[i].Fired? && more[i].out.Some?
      ensures HushedUntil(more[..i], more[i].key.path).None? ||
              HushedUntil(more[..i], more[i].key.path).value <= more[i].at
    {
      assert more[..i] == h[..i];
    }
  }

  lemma JoinedAppend(groups: seq<Group>, g: Group)
    ensures Joined(groups + [g]) == Joined(groups) + g.events
  {
    assert (groups + [g])[..|groups|] == groups;
  }

  lemma MarkKeepsGroups(s: Watch, t: Watch, m: Mark, key: Watched)
    requires GoodGroups(s, key) && Deadline(s, key) && t.history == s.history + [m] && t.interval == s.interval
    requires m.Fired? && m.key == key ==> key in s.pending && s.pending[key] <= m.at
    ensures GoodGroups(t, key)
  {
    hide Waiting, Groups, AcceptedOf, HushedUntil, Joined;
    AppendMark(s.history, m, key, "");
    var groups, waiting, accepted := Groups(s.history, key), Waiting(s.history, key), AcceptedOf(s.history, key);
    if m.Fired? && m.key == key {
      FiredGroup(groups, waiting, m.at, m.out);
    } else if m.Accepted? && m.key == key {
      assert Joined(groups) + (waiting + [m.at]) == (Joined(groups) + waiting) + [m.at];
      assert groups + [] == groups;
    } else {
      assert groups + [] == groups && accepted + [] == accepted;
    }
  }

  /** A firing closes the waiting events into a group. */
  lemma FiredGroup(groups: seq<Group>, waiting: seq<nat>, at: nat, out: Option<Change>)
    ensures Joined(groups + [Group(waiting, at, out)]) + [] == Joined(groups) + waiting
    ensures Joined(groups) + waiting == Joined(groups) + waiting + []
  {
    JoinedAppend(groups, Group(waiting, at, out));
  }

  lemma NextKeepsInv(s: Watch, step: Step)
    requires Inv(s)
    ensures Inv(Next(s, step))
  {
    hide Ignored, Under, ChangeFor, RelativeOf, Waiting, Groups, AcceptedOf, HushedUntil, GoodGroups, QuietWhileHushed;
    var t := Next(s, step);
    if t.history == s.history {
      forall key ensures Deadline(t, key) && GoodGroups(t, key) {
        assert Deadline(s, key) && GoodGroups(s, key);
        SameGroups(s, t, key);
      }
      forall path ensures Silence(t, path) {
        assert Silence(s, path);
      }
    } else {
      hide Deadline, Silence;
      var m := t.history[|s.history|];
      assert t.history == s.history + [m];
      forall key ensures Deadline(t, key) && GoodGroups(t, key) {
        assert Deadline(s, key) && GoodGroups(s, key);
        MarkKeepsDeadline(s, step, key);
        MarkKeepsGroups(s, t, m, key);
      }
      forall path ensures Silence(t, path) {
        assert Silence(s, path);
        MarkKeepsSilence(s, step, path);
      }
      if m.Fired? {
        assert Silence(s, m.key.path);
      }
      QuietAppend(s.history, m);
    }
  }

  lemma MarkKeepsDeadline(s: Watch, step: Step, key: Watched)
    requires Deadline(s, key) && Next(s, step).history != s.history
    ensures Deadline(Next(s, step), key)
  {
    hide Ignored, Under, ChangeFor, RelativeOf, Waiting, Groups, AcceptedOf, HushedUntil;
    var t := Next(s, step);
    AppendMark(s.history, t.history[|s.history|], key, "");
  }

  lemma MarkKeepsSilence(s: Watch, step: Step, path: string)
    requires Silence(s, path) && Next(s, step).history != s.history
    ensures Silence(Next(s, step), path)
  {
    hide Ignored, Under, ChangeFor, RelativeOf, Waiting, Groups, AcceptedOf, HushedUntil;
    var t := Next(s, step);
    AppendMark(s.history, t.history[|s.history|], Watched("", ""), path);
  }

  lemma SameGroups(s: Watch, t: Watch, key: Watched)
    requires GoodGroups(s, key) && t.history == s.history && t.interval == s.interval
    ensures GoodGroups(t, key)
  {}

  lemma {:induction false} ReachableInv(interval: nat, steps: seq<Step>)
    ensures Inv(Run(Start(interval), steps)) && Run(Start(interval), steps).interval == interval
  {
    hide Inv, Next;
    if steps == [] {
      StartInv(interval);
    } else {
      ReachableInv(interval, steps[..|steps| - 1]);
      NextKeepsInv(Run(Start(interval), steps[..|steps| - 1]), steps[|steps| - 1]);
      SameInterval(Run(Start(interval), steps[..|steps| - 1]), steps[|steps| - 1]);
    }
  }

  lemma SameInterval(s: Watch, step: Step)
    ensures Next(s, step).interval == s.interval
  {
    hide Ignored, Under, ChangeFor, RelativeOf, Purge;
  }

  lemma StartInv(interval: nat)
    ensures Inv(Start(interval))
  {}

  // ---------- the theorems ----------

  /**
   In every timed run a path's accepted events split, in order, into the groups its firings consumed and the
   events still waiting; no group is empty; and a firing comes at least the interval after its group's last event.
   */
  lemma DebounceGroups(interval: nat, steps: seq<Step>, key: Watched)
    ensures var s := Run(Start(interval), steps);
            var groups := Groups(s.history, key);
            && Joined(groups) + Waiting(s.history, key) == AcceptedOf(s.history, key)
            && (key in s.pending <==> Waiting(s.history, key) != [])
            && forall i :: 0 <= i < |groups| ==>
                 groups[i].events != [] && groups[i].at >= groups[i].events[|groups[i].events| - 1] + interval
  {
    ReachableInv(interval, steps);
    var s := Run(Start(interval), steps);
    assert Deadline(s, key) && GoodGroups(s, key);
  }

  /** Nothing is emitted for a path while its latest suppression is still running. */
  lemma SuppressedPathsAreSilent(interval: nat, steps: seq<Step>, i: nat)
    requires i < |Run(Start(interval), steps).history| && Run(Start(interval), steps).history[i].Fired?
    requires var h := Run(Start(interval), steps).history;
             HushedUntil(h[..i], h[i].key.path).Some? && HushedUntil(h[..i], h[i].key.path).value > h[i].at
    ensures Run(Start(interval), steps).history[i].out == None
  {
    ReachableInv(interval, steps);
  }

  /**
   What a firing sends out is the state of the disk at that path, under a folder registered for it; joined to the
   folder's root, what it calls the path is the path again.
   */
  lemma FiringTellsTheDisk(s: Watch, key: Watched, now: nat, disk: Disk)
    requires s.clock <= now && key in s.pending && s.pending[key] <= now
    ensures var t := Next(s, Fire(key, now, disk));
            && t.history == s.history + [Fired(key, now, t.history[|s.history|].out)] && key !in t.pending
            && match t.history[|s.history|].out
               case Some(Upserted(folder, relative, size, hash)) =>
                 disk == File(size, hash) && folder == key.folder && folder in s.folders &&
                   Names(s.folders[folder], relative, key.path)
               case Some(Deleted(folder, relative)) =>
                 disk == Missing && folder == key.folder && folder in s.folders &&
                   Names(s.folders[folder], relative, key.path)
               case None =>
                 (key.path in s.suppressed && s.suppressed[key.path] > now) || disk.Directory? || disk.Unreadable? ||
                 key.folder !in s.folders || Relative(s.folders[key.folder], key.path).None?
  {
    hide Relative, Parts, Tidy, Beneath;
    if key.folder in s.folders {
      RelativeLeadsBack(s.folders[key.folder], key.path);
    }
  }

  ghost predicate Names(root: string, relative: string, path: string) {
    Relative(root, path) == Some(relative) && (Tidy(root, path) ==> Parts(root + "/" + relative) == Parts(path))
  }

  // ---------- the watcher as an object ----------

  /** A timer tick fires the ready paths one after the other. */
  function FireAll(s: Watch, order: seq<Watched>, now: nat, disk: string -> Disk): (s': Watch)
    decreases |order|
  {
    if order == [] then s else FireAll(Next(s, Fire(order[0], now, disk(order[0].path))), order[1..], now, disk)
  }

  lemma {:induction false} FireAllAppend(s: Watch, order: seq<Watched>, key: Watched, now: nat, disk: string -> Disk)
    ensures FireAll(s, order + [key], now, disk) ==
              Next(FireAll(s, order, now, disk), Fire(key, now, disk(key.path)))
    decreases |order|
  {
    hide Next;
    if order == [] {
      assert [] + [key] == [key] && [key][1..] == [];
    } else {
      assert (order + [key])[0] == order[0] && (order + [key])[1..] == order[1..] + [key];
      FireAllAppend(Next(s, Fire(order[0], now, disk(order[0].path))), order[1..], key, now, disk);
    }
  }

  /** The changes a stretch of history sent out. */
  function SentOut(h: seq<Mark>): (changes: seq<Change>) {
    if h == [] then []
    else
      var m := h[|h| - 1];
      SentOut(h[..|h| - 1]) + if m.Fired? && m.out.Some? then [m.out.value] else []
  }

  lemma SentOutAppend(h: seq<Mark>, m: Mark)
    ensures SentOut(h + [m]) == SentOut(h) + if m.Fired? && m.out.Some? then [m.out.value] else []
  {
    assert (h + [m])[..|h|] == h;
  }

  /** What a stretch of history sent out is what each of its firings sent out, in order. */
  lemma {:induction false} SentOutSplit(a: seq<Mark>, b: seq<Mark>)
    ensures SentOut(a + b) == SentOut(a) + SentOut(b)
    decreases |b|
  {
    hide SentOut;
    if b == [] {
      SentOutOne();
      assert a + b == a;
    } else {
      var front, last := b[..|b| - 1], b[|b| - 1];
      assert b == front + [last] && a + b == (a + front) + [last];
      SentOutSplit(a, front);
      SentOutAppend(front, last);
      SentOutAppend(a + front, last);
    }
  }

  lemma SentOutOne()
    ensures SentOut([]) == []
    ensures forall m: Mark :: SentOut([m]) == if m.Fired? && m.out.Some? then [m.out.value] else []
  {
    forall m: Mark ensures SentOut([m]) == if m.Fired? && m.out.Some? then [m.out.value] else [] {
      assert [m][..0] == [];
    }
  }

  class FolderWatcher {
    const interval: nat
    var clock: nat
    var folders: map<string, string>
    var pending: map<Watched, nat>
    var suppressed: map<string, nat>
    ghost var history: seq<Mark>

    ghost function View(): (s: Watch)
      reads this
    {
      Watch(interval, clock, folders, pending, suppressed, history)
    }

    constructor (debounce: nat)
      ensures View() == Start(debounce)
    {
      interval, clock, folders, pending, suppressed, history := debounce, 0, map[], map[], map[], [];
    }

    method SuppressPath(path: string, duration: nat, now: nat)
      requires clock <= now
      modifies this
      ensures View() == Next(old(View()), Suppress(path, duration, now))
      ensures suppressed == old(suppressed)[path := now + duration] && pending == old(pending) &&
              folders == old(folders)
    {
      suppressed := suppressed[path := now + duration];
      clock, history := now, history + [Hushed(path, now + duration)];
    }

    method AddFolder(folder: string, root: string)
      modifies this
      ensures View() == Next(old(View()), Register(folder, root))
      ensures folders == old(folders)[folder := root] && pending == old(pending) && suppressed == old(suppressed)
    {
      folders := folders[folder := root];
    }

    /** One path of a raw event; `folder` is the first matching folder met, if any matches. */
    method OnRawEvent(path: string, now: nat) returns (folder: string)
      requires clock <= now
      modifies this
      ensures View() == Next(old(View()), Raw(path, folder, now))
      ensures !Ignored(path) && (exists f :: f in folders && Under(folders[f], path)) &&
              path !in Purge(old(suppressed), now) ==>
                folder in folders && Watched(folder, path) in pending &&
                  pending[Watched(folder, path)] == now + interval
    {
      hide Ignored, Under, Purge, RelativeOf, ChangeFor;
      folder := "";
      clock := now;
      if Ignored(path) {
        return;
      }
      suppressed := Purge(suppressed, now);
      if path in suppressed {
        return;
      }
      var left := folders.Keys;
      while left != {}
        invariant left <= folders.Keys
        invariant forall f :: f in folders && f !in left ==> !Under(folders[f], path)
        decreases left
      {
        var f :| f in left;
        if Under(folders[f], path) {
          folder := f;
          pending := pending[Watched(f, path) := now + interval];
          history := history + [Accepted(Watched(f, path), now)];
          return;
        }
        left := left - {f};
      }
    }

    method FireOne(key: Watched, now: nat, disk: Disk) returns (change: Option<Change>)
      requires clock <= now && key in pending && pending[key] <= now
      modifies this
      ensures View() == Next(old(View()), Fire(key, now, disk))
      ensures clock == now && pending == old(pending) - {key} && history == old(history) + [Fired(key, now, change)]
    {
      hide Relative, Purge;
      pending := pending - {key};
      clock := now;
      change := None;
      if key.folder in folders {
        var relative := NormalizeRelativePath(folders[key.folder], key.path);
        if relative.Some? {
          suppressed := Purge(suppressed, now);
          if key.path !in suppressed {
            change :=
              match disk
              case File(size, hash) => Some(Upserted(key.folder, relative.value, size, hash))
              case Missing => Some(Deleted(key.folder, relative.value))
              case _ => None;
          }
        }
      }
      history := history + [Fired(key, now, change)];
    }

    /** A tick of the timer: every path whose deadline has passed fires once, and no other. */
    method OnTimer(now: nat, disk: string -> Disk) returns (out: seq<Change>, ghost order: seq<Watched>)
      requires clock <= now
      modifies this
      ensures View() == FireAll(old(View()), order, now, disk)
      ensures forall key :: key in order <==> key in old(pending) && old(pending)[key] <= now
      ensures forall i, j :: 0 <= i < j < |order| ==> order[i] != order[j]
      ensures pending == map key | key in old(pending) && old(pending)[key] > now :: old(pending)[key]
      ensures old(history) <= history && out == SentOut(history[|old(history)|..])
    {
      hide Purge, ChangeFor, RelativeOf, Next;
      var ready := set key | key in pending && pending[key] <= now;
      out, order := [], [];
      ghost var all := ready;
      ghost var sent: seq<Mark> := [];
      while ready != {}
        invariant clock <= now && ready <= all <= old(pending).Keys
        invariant View() == FireAll(old(View()), order, now, disk)
        invariant forall key :: key in order <==> key in all && key !in ready
        invariant forall i, j :: 0 <= i < j < |order| ==> order[i] != order[j]
        invariant pending == old(pending) - (all - ready)
        invariant history == old(history) + sent && out == SentOut(sent)
        decreases ready
      {
        var key :| key in ready;
        FireAllAppend(old(View()), order, key, now, disk);
        ready := ready - {key};
        var change := FireOne(key, now, disk(key.path));
        SentOutAppend(sent, Fired(key, now, change));
        sent := sent + [Fired(key, now, change)];
        if change.Some? {
          out := out + [change.value];
        }
        order := order + [key];
      }
    }
  }
}
