/**
 A path taken apart and put together again (`Path::components` and `PathBuf::push` as watcher.rs uses them,
 over '/'): repeated and trailing separators and inner "." do not count, the root is a component of its own.
 */
module Components {
  import opened Outcomes
  import opened Paths

  function Parts(p: string): (parts: seq<string>)
    ensures forall c :: c in parts ==> c != "" && (c == "/" || '/' !in c)
  {
    var i := LastIndex(p, '/');
    var last := p[i + 1..];
    assert '/' !in last;
    if i < 0 then if last == "" then [] else [last]
    else (if i == 0 then ["/"] else Parts(p[..i])) + if last == "" || last == "." then [] else [last]
  }

  /** An ordinary name: not the root, not "." and not "..". */
  predicate Ordinary(c: string) {
    c != "" && '/' !in c && c != "." && c != ".."
  }

  function Join(parts: seq<string>): (p: string) {
    if parts == [] then ""
    else if |parts| == 1 then parts[0]
    else Join(parts[..|parts| - 1]) + "/" + parts[|parts| - 1]
  }

  function Ordinaries(parts: seq<string>): (names: seq<string>)
    ensures forall c :: c in names ==> Ordinary(c) && c in parts
    ensures (forall c :: c in parts ==> Ordinary(c)) ==> names == parts
  {
    if parts == [] then []
    else
      var front, last := parts[..|parts| - 1], parts[|parts| - 1];
      assert parts == front + [last];
      Ordinaries(front) + if Ordinary(last) then [last] else []
  }

  lemma {:induction false} LastIndexAfter(a: string, c: string)
    requires '/' !in c
    ensures LastIndex(a + "/" + c, '/') == |a|
  {
    var p := a + "/" + c;
    var i := LastIndex(p, '/');
    assert p[|a|] == '/';
    assert forall j :: |a| < j < |p| ==> p[j] == c[j - |a| - 1];
  }

  /** What follows a separator is one more component, unless it is nothing or "."; ".." does count. */
  lemma PartsAfter(a: string, last: string)
    requires a != "" && '/' !in last
    ensures Parts(a + "/" + last) == Parts(a) + if last == "" || last == "." then [] else [last]
  {
    var p := a + "/" + last;
    LastIndexAfter(a, last);
    assert p[..|a|] == a && p[|a| + 1..] == last;
  }

  lemma PartsPush(a: string, c: string)
    requires a != "" && Ordinary(c)
    ensures Parts(a + "/" + c) == Parts(a) + [c]
  {
    hide Parts;
    PartsAfter(a, c);
  }

  /** Where a path begins: with the root, which is a component of its own, or with a name, "." included. */
  lemma PartsOfBeginnings(c: string)
    requires '/' !in c
    ensures Parts(c) == if c == "" then [] else [c]
    ensures Parts("/" + c) == ["/"] + if c == "" || c == "." then [] else [c]
  {
    NoSlash(c);
    assert c[-1 + 1..] == c;
    LastIndexIs("/" + c, '/', 0);
    assert ("/" + c)[0 + 1..] == c;
  }

  lemma NoSlash(c: string)
    requires '/' !in c
    ensures LastIndex(c, '/') == -1
  {}

  /** Names joined under a root are the root's components and then those names. */
  lemma {:induction false} PartsUnder(root: string, names: seq<string>)
    requires root != "" && names != [] && forall c :: c in names ==> Ordinary(c)
    ensures Parts(root + "/" + Join(names)) == Parts(root) + names
  {
    hide Parts, Join, Ordinary;
    var front, last := names[..|names| - 1], names[|names| - 1];
    assert names == front + [last] && Ordinary(last);
    JoinLast(names);
    if front == [] {
      PartsPush(root, last);
      assert Join(names) == last && names == [last];
    } else {
      PartsUnder(root, front);
      PartsPush(root + "/" + Join(front), last);
      assert root + "/" + Join(names) == (root + "/" + Join(front)) + "/" + last;
      assert Parts(root) + names == (Parts(root) + front) + [last];
    }
  }

  lemma JoinLast(names: seq<string>)
    requires names != []
    ensures if |names| == 1 then Join(names) == names[0]
            else Join(names) == Join(names[..|names| - 1]) + "/" + names[|names| - 1]
  {}

  /** Joined names come apart again as they were. */
  lemma {:induction false} PartsOfJoin(names: seq<string>)
    requires names != [] && forall c :: c in names ==> Ordinary(c)
    ensures Join(names) != "" && Parts(Join(names)) == names
  {
    var front, last := names[..|names| - 1], names[|names| - 1];
    assert names == front + [last] && Ordinary(last);
    if front == [] {
      assert LastIndex(last, '/') < 0 && last[0..] == last;
    } else {
      PartsOfJoin(front);
      PartsPush(Join(front), last);
    }
  }

  /** The components of `path` below `root`. */
  function Beneath(root: string, path: string): (parts: seq<string>)
    requires Parts(root) <= Parts(path)
    ensures Parts(path) == Parts(root) + parts
  {
    Parts(path)[|Parts(root)|..]
  }

  /** The path of `path` relative to `root`: its ordinary names, in forward slashes. */
  function Relative(root: string, path: string): (relative: Option<string>) {
    if !(Parts(root) <= Parts(path)) then None
    else
      var names := Ordinaries(Beneath(root, path));
      if names == [] then None else Some(ForwardSlashes(Join(names)))
  }

  /** Beneath its root the path consists of ordinary names without backslashes. */
  ghost predicate Tidy(root: string, path: string) {
    root != "" && Parts(root) <= Parts(path) && Beneath(root, path) != [] &&
    forall c :: c in Beneath(root, path) ==> Ordinary(c) && '\\' !in c
  }

  lemma {:induction false} JoinHasNoBackslash(names: seq<string>)
    requires forall c :: c in names ==> '\\' !in c
    ensures '\\' !in Join(names)
  {
    if |names| == 1 {
      assert names[0] in names;
    } else if names != [] {
      JoinHasNoBackslash(names[..|names| - 1]);
      assert names[|names| - 1] in names;
    }
  }

  /**
   There is a relative path exactly for a path under the root with an ordinary name below it. If all names below the
   root are ordinary, the relative path has just those, and joined to its root it is the path again.
   */
  lemma RelativeLeadsBack(root: string, path: string)
    ensures Relative(root, path).Some? <==>
              Parts(root) <= Parts(path) && exists c :: c in Beneath(root, path) && Ordinary(c)
    ensures Tidy(root, path) ==>
              Relative(root, path).Some? && var relative := Relative(root, path).value;
              Parts(relative) == Beneath(root, path) && Parts(root + "/" + relative) == Parts(path)
    ensures Relative(root, path).Some? && (forall c :: c in Beneath(root, path) && Ordinary(c) ==> '\\' !in c) ==>
              Parts(Relative(root, path).value) == Ordinaries(Beneath(root, path))
    ensures Relative(root, path).Some? ==>
              var relative, joined := Relative(root, path).value, Join(Ordinaries(Beneath(root, path)));
              |relative| == |joined| &&
              forall i :: 0 <= i < |joined| ==> relative[i] == if joined[i] == '\\' then '/' else joined[i]
  {
    hide Parts, Join, Ordinary, Ordinaries;
    if Parts(root) <= Parts(path) {
      var below := Beneath(root, path);
      OrdinariesKept(below);
      var names := Ordinaries(below);
      if names != [] {
        PartsOfJoin(names);
        if forall c :: c in below && Ordinary(c) ==> '\\' !in c {
          JoinHasNoBackslash(names);
          assert ForwardSlashes(Join(names)) == Join(names);
        }
      }
      if Tidy(root, path) {
        PartsOfJoin(below);
        PartsUnder(root, below);
        JoinHasNoBackslash(below);
        assert ForwardSlashes(Join(below)) == Join(below);
      }
    }
  }

  lemma OrdinariesLast(front: seq<string>, c: string)
    ensures Ordinaries(front + [c]) == Ordinaries(front) + if Ordinary(c) then [c] else []
  {
    hide Ordinary;
    assert (front + [c])[..|front|] == front;
  }

  /** What is kept of a path is kept component by component, in order. */
  lemma {:induction false} OrdinariesSplit(a: seq<string>, b: seq<string>)
    ensures Ordinaries(a + b) == Ordinaries(a) + Ordinaries(b)
    decreases |b|
  {
    hide Ordinary, Ordinaries;
    if b == [] {
      NothingOrdinary();
      assert a + b == a;
    } else {
      var front, last := b[..|b| - 1], b[|b| - 1];
      assert b == front + [last] && a + b == (a + front) + [last];
      OrdinariesSplit(a, front);
      OrdinariesLast(front, last);
      OrdinariesLast(a + front, last);
    }
  }

  lemma NothingOrdinary()
    ensures Ordinaries([]) == []
  {}

  lemma {:induction false} OrdinariesKept(parts: seq<string>)
    ensures Ordinaries(parts) == [] <==> !exists c :: c in parts && Ordinary(c)
  {
    if parts != [] {
      var front, last := parts[..|parts| - 1], parts[|parts| - 1];
      assert parts == front + [last];
      OrdinariesKept(front);
    }
  }

  /** The relative path is computed by going over the components below the root. */
  method NormalizeRelativePath(root: string, path: string) returns (relative: Option<string>)
    ensures relative == Relative(root, path)
  {
    hide Parts, Join, Ordinary;
    var base, full := Parts(root), Parts(path);
    if !(base <= full) {
      return None;
    }
    var below := full[|base|..];
    var safe: seq<string> := [];
    for i := 0 to |below|
      invariant safe == Ordinaries(below[..i])
    {
      assert below[..i + 1][..i] == below[..i];
      if Ordinary(below[i]) {
        safe := safe + [below[i]];
      }
    }
    assert below[..|below|] == below;
    return if safe == [] then None else Some(ForwardSlashes(Join(safe)));
  }
}
