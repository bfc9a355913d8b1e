/**
 Path text as the catalogue stores it, and the name given to the losing side of a conflict
 (`normalize_path` in db.rs, `generate_conflict_path` in reconciler.rs).

 A path is a string over '/'. The date formatter is a parameter: `fmt(t)` is the text
 that stands for the timestamp `t`.
 */
module Paths {

  import opened Outcomes

  const MARKER := " (Conflict - "

  function ForwardSlashes(s: string): (s': string) {
    seq(|s|, i requires 0 <= i < |s| => if s[i] == '\\' then '/' else s[i])
  }

  function TrimSlashes(s: string): (s': string) {
    if s != [] && s[0] == '/' then TrimSlashes(s[1..]) else s
  }

  function Normalize(p: string): (p': string) {
    TrimSlashes(ForwardSlashes(p))
  }

  predicate IsNormal(p: string) {
    '\\' !in p && (p != [] ==> p[0] != '/')
  }

  lemma {:induction false} TrimSlashesShape(s: string)
    ensures TrimSlashes(s) != [] ==> TrimSlashes(s)[0] != '/'
    ensures '\\' !in s ==> '\\' !in TrimSlashes(s)
  {
    if s != [] && s[0] == '/' {
      TrimSlashesShape(s[1..]);
    }
  }

  /** What the catalogue's keys look like: a normalized path is a fixed point. */
  lemma NormalizeIsProjection(p: string)
    ensures IsNormal(Normalize(p))
    ensures IsNormal(p) <==> Normalize(p) == p
  {
    var f := ForwardSlashes(p);
    assert forall i :: 0 <= i < |f| ==> f[i] != '\\';
    TrimSlashesShape(f);
    if IsNormal(p) {
      assert f == p;
    }
  }

  /** A separator, of either kind. */
  predicate IsSlash(c: char) {
    c == '/' || c == '\\'
  }

  /** Normalizing drops the separators in front and turns the other backslashes, and nothing else. */
  lemma NormalizeKeepsTheRest(p: string) returns (n: nat)
    ensures n <= |p| && |Normalize(p)| == |p| - n && forall i :: 0 <= i < n ==> IsSlash(p[i])
    ensures n < |p| ==> !IsSlash(p[n])
    ensures forall i :: n <= i < |p| ==> Normalize(p)[i - n] == if p[i] == '\\' then '/' else p[i]
  {
    n := TrimmedBy(ForwardSlashes(p));
    var f := ForwardSlashes(p);
    assert forall i :: 0 <= i < |p| ==> (IsSlash(p[i]) <==> f[i] == '/');
  }

  lemma {:induction false} TrimmedBy(s: string) returns (n: nat)
    ensures n <= |s| && TrimSlashes(s) == s[n..] && forall i :: 0 <= i < n ==> s[i] == '/'
    ensures n < |s| ==> s[n] != '/'
  {
    if s != [] && s[0] == '/' {
      var m := TrimmedBy(s[1..]);
      n := m + 1;
      assert s[1..][m..] == s[n..];
      assert forall i :: 1 <= i < n ==> s[i] == s[1..][i - 1];
    } else {
      n := 0;
    }
  }

  // ---------- the parts of a path ----------

  function LastIndex(s: string, c: char): (i: int)
    ensures -1 <= i < |s|
    ensures i >= 0 ==> s[i] == c
    ensures forall j :: i < j < |s| ==> s[j] != c
  {
    if s == [] then -1
    else if s[|s| - 1] == c then |s| - 1
    else LastIndex(s[..|s| - 1], c)
  }

  function Parent(p: string): (parent: string) {
    var i := LastIndex(p, '/');
    if i < 0 then "" else p[..i]
  }

  function FileName(p: string): (name: string) {
    p[LastIndex(p, '/') + 1..]
  }

  function Stem(name: string): (stem: string) {
    if name == "" || name == "." || name == ".." then "file"
    else
      var dot := LastIndex(name, '.');
      if dot <= 0 then name else name[..dot]
  }

  function Extension(name: string): (ext: Option<string>) {
    var dot := LastIndex(name, '.');
    if name == ".." || dot <= 0 then None else Some(name[dot + 1..])
  }

  function ShortNode(origin: string): (short: string)
    ensures short <= origin && |short| == if |origin| < 8 then |origin| else 8
  {
    if |origin| > 8 then origin[..8] else origin
  }

  function ConflictHead(path: string): (text: string) {
    (if Parent(path) == "" then "" else ForwardSlashes(Parent(path)) + "/") + Stem(FileName(path))
  }

  function ConflictTail(fmt: int -> string, path: string, origin: string, modifiedAt: int): (text: string) {
    ShortNode(origin) + " " + fmt(modifiedAt) + ")" +
    match Extension(FileName(path))
    case Some(ext) => "." + ext
    case None => ""
  }

  function ConflictPath(fmt: int -> string, path: string, origin: string, modifiedAt: int): (text: string) {
    ConflictHead(path) + MARKER + ConflictTail(fmt, path, origin, modifiedAt)
  }

  // ---------- conflict names, spelled out ----------

  lemma LastIndexIs(s: string, c: char, i: nat)
    requires i < |s| && s[i] == c && forall j :: i < j < |s| ==> s[j] != c
    ensures LastIndex(s, c) == i
  {}

  lemma PartsOfPath(dir: string, name: string)
    requires dir != "" && '/' !in name
    ensures Parent(dir + "/" + name) == dir && FileName(dir + "/" + name) == name
    ensures Parent(name) == "" && FileName(name) == name
  {
    var p := dir + "/" + name;
    assert forall j :: |dir| < j < |p| ==> p[j] == name[j - |dir| - 1];
    LastIndexIs(p, '/', |dir|);
    assert LastIndex(name, '/') == -1;
  }

  lemma PartsOfName(stem: string, ext: string)
    requires stem != "" && '.' !in ext && stem + "." + ext != ".."
    ensures Stem(stem + "." + ext) == stem && Extension(stem + "." + ext) == Some(ext)
  {
    var name := stem + "." + ext;
    assert forall j :: |stem| < j < |name| ==> name[j] == ext[j - |stem| - 1];
    LastIndexIs(name, '.', |stem|);
    assert name != "." by { assert |name| >= 2; }
  }

  /** The copy stays in the directory, and its name depends on the file's name only. */
  lemma ConflictPathStays(fmt: int -> string, dir: string, name: string, origin: string, t: int)
    requires dir != "" && '/' !in name
    ensures ConflictPath(fmt, name, origin, t) == Stem(name) + MARKER + ConflictTail(fmt, name, origin, t)
    ensures ConflictPath(fmt, dir + "/" + name, origin, t) ==
              ForwardSlashes(dir) + "/" + ConflictPath(fmt, name, origin, t)
  {
    hide LastIndex, Parent, FileName, Stem, Extension, ForwardSlashes;
    PartsOfPath(dir, name);
    var tail := ConflictTail(fmt, name, origin, t);
    assert ConflictTail(fmt, dir + "/" + name, origin, t) == tail;
    assert "" + Stem(name) == Stem(name);
    assert ForwardSlashes(dir) + "/" + Stem(name) + MARKER + tail ==
           ForwardSlashes(dir) + "/" + (Stem(name) + MARKER + tail);
  }

  /** "dir/stem.ext" in conflict is kept as "dir/stem (Conflict - node time).ext", also without a directory. */
  lemma ConflictPathSpelled(fmt: int -> string, dir: string, stem: string, ext: string, origin: string, t: int)
    requires dir != "" && '/' !in stem && '/' !in ext && stem != "" && '.' !in ext && stem + "." + ext != ".."
    ensures var copy := stem + " (Conflict - " + ShortNode(origin) + " " + fmt(t) + ")." + ext;
            && ConflictPath(fmt, stem + "." + ext, origin, t) == copy
            && ConflictPath(fmt, dir + "/" + (stem + "." + ext), origin, t) == ForwardSlashes(dir) + "/" + copy
  {
    hide LastIndex, Parent, FileName, Stem, Extension, ShortNode, ForwardSlashes, ConflictPath;
    var name := stem + "." + ext;
    ConflictPathStays(fmt, dir, name, origin, t);
    PartsOfName(stem, ext);
    NameIsItsFileName(name);
    var mark := ShortNode(origin) + " " + fmt(t) + ")";
    assert ConflictTail(fmt, name, origin, t) == mark + ("." + ext);
    assert stem + MARKER + (mark + ("." + ext)) ==
           stem + " (Conflict - " + ShortNode(origin) + " " + fmt(t) + ")." + ext;
  }

  lemma PartsOfPlainName(name: string)
    requires name != "" && name != "." && name != ".." && forall i :: 0 < i < |name| ==> name[i] != '.'
    ensures Stem(name) == name && Extension(name) == None
  {
    assert LastIndex(name, '.') <= 0;
  }

  /** A name without an extension, hidden files included, gets the mark at its end. */
  lemma ConflictPathSpelledPlain(fmt: int -> string, dir: string, name: string, origin: string, t: int)
    requires dir != "" && '/' !in name && name != "" && name != "." && name != ".."
    requires forall i :: 0 < i < |name| ==> name[i] != '.'
    ensures var copy := name + " (Conflict - " + ShortNode(origin) + " " + fmt(t) + ")";
            && ConflictPath(fmt, name, origin, t) == copy
            && ConflictPath(fmt, dir + "/" + name, origin, t) == ForwardSlashes(dir) + "/" + copy
  {
    hide LastIndex, Parent, FileName, Stem, Extension, ShortNode, ForwardSlashes, ConflictPath;
    ConflictPathStays(fmt, dir, name, origin, t);
    PartsOfPlainName(name);
    NameIsItsFileName(name);
    var mark := ShortNode(origin) + " " + fmt(t) + ")";
    assert ConflictTail(fmt, name, origin, t) == mark + "";
    assert name + MARKER + (mark + "") == name + " (Conflict - " + ShortNode(origin) + " " + fmt(t) + ")";
  }

  lemma NameIsItsFileName(name: string)
    requires '/' !in name
    ensures FileName(name) == name
  {
    PartsOfPath("d", name);
  }

  // ---------- conflict names carry the marker ----------

  ghost predicate Contains(s: string, part: string) {
    exists a, b :: s == a + part + b
  }

  lemma {:induction false} TrimSlashesBefore(a: string, b: string)
    requires b != [] && b[0] != '/'
    ensures TrimSlashes(a + b) == TrimSlashes(a) + b
  {
    if a == [] {
      assert a + b == b;
    } else if a[0] == '/' {
      TrimSlashesBefore(a[1..], b);
      assert (a + b)[1..] == a[1..] + b;
    }
  }

  lemma ForwardSlashesSplit(a: string, b: string)
    ensures ForwardSlashes(a + b) == ForwardSlashes(a) + ForwardSlashes(b)
  {}

  lemma NormalizeAround(head: string, middle: string, tail: string)
    requires middle != [] && middle[0] != '/' && '\\' !in middle
    ensures Normalize(head + middle + tail) == Normalize(head) + middle + ForwardSlashes(tail)
  {
    ForwardSlashesSplit(head + middle, tail);
    ForwardSlashesSplit(head, middle);
    assert ForwardSlashes(middle) == middle;
    var rest := middle + ForwardSlashes(tail);
    assert ForwardSlashes(head) + middle + ForwardSlashes(tail) == ForwardSlashes(head) + rest;
    TrimSlashesBefore(ForwardSlashes(head), rest);
    assert TrimSlashes(ForwardSlashes(head)) + rest == Normalize(head) + middle + ForwardSlashes(tail);
  }

  /** Every name made for a conflict contains the marker, also after normalization. */
  lemma ConflictPathCarriesMarker(fmt: int -> string, path: string, origin: string, modifiedAt: int)
    ensures Contains(Normalize(ConflictPath(fmt, path, origin, modifiedAt)), MARKER)
  {
    hide Normalize, ForwardSlashes, ConflictHead, ConflictTail;
    NormalizeAround(ConflictHead(path), MARKER, ConflictTail(fmt, path, origin, modifiedAt));
  }

  // ---------- a conflict name never is the path in conflict ----------

  ghost function Parens(s: string): (n: nat) {
    multiset(s)['(']
  }

  lemma ParensSplit(a: string, b: string)
    ensures Parens(a + b) == Parens(a) + Parens(b)
  {}

  lemma {:induction false} ParensForwardSlashes(s: string)
    ensures Parens(ForwardSlashes(s)) == Parens(s)
  {
    if s != [] {
      var first, rest := s[..1], s[1..];
      assert s == first + rest;
      ParensForwardSlashes(rest);
      ForwardSlashesSplit(first, rest);
      ParensSplit(first, rest);
      ParensSplit(ForwardSlashes(first), ForwardSlashes(rest));
      ParensOne(first);
    }
  }

  lemma ParensOne(s: string)
    requires |s| == 1
    ensures Parens(ForwardSlashes(s)) == Parens(s)
  {
    assert s == [s[0]] && ForwardSlashes(s) == [ForwardSlashes(s)[0]];
  }

  lemma {:induction false} ParensTrim(s: string)
    ensures Parens(TrimSlashes(s)) == Parens(s)
  {
    if s != [] && s[0] == '/' {
      ParensTrim(s[1..]);
      ParensSplit(['/'], s[1..]);
      assert s == ['/'] + s[1..];
    }
  }

  lemma ParensNormalize(s: string)
    ensures Parens(Normalize(s)) == Parens(s)
  {
    ParensForwardSlashes(s);
    ParensTrim(ForwardSlashes(s));
  }

  lemma ParensAround(s: string, i: nat)
    requires i < |s| && s[i] != '('
    ensures Parens(s) == Parens(s[..i]) + Parens(s[i + 1..])
  {
    assert s == s[..i] + ([s[i]] + s[i + 1..]);
    ParensSplit(s[..i], [s[i]] + s[i + 1..]);
    ParensSplit([s[i]], s[i + 1..]);
  }

  lemma ParensOfName(name: string)
    ensures Parens(name) <=
            Parens(Stem(name)) + match Extension(name) case Some(ext) => Parens(ext) case None => 0
  {
    var dot := LastIndex(name, '.');
    if 0 < dot {
      ParensAround(name, dot);
    }
    assert Parens("") == Parens(".") == Parens("..") == 0;
  }

  lemma ParensOfPath(p: string)
    ensures Parens(p) == Parens(Parent(p)) + Parens(FileName(p))
  {
    var i := LastIndex(p, '/');
    if 0 <= i {
      ParensAround(p, i);
    }
  }

  lemma ParensOfHead(path: string)
    ensures Parens(ConflictHead(path)) == Parens(Parent(path)) + Parens(Stem(FileName(path)))
  {
    var parent, stem := Parent(path), Stem(FileName(path));
    ParensForwardSlashes(parent);
    ParensSplit(ForwardSlashes(parent), "/");
    ParensSplit(if parent == "" then "" else ForwardSlashes(parent) + "/", stem);
  }

  lemma ParensOfTail(fmt: int -> string, path: string, origin: string, modifiedAt: int)
    ensures Parens(ConflictTail(fmt, path, origin, modifiedAt)) >=
            match Extension(FileName(path)) case Some(ext) => Parens(ext) case None => 0
  {
    var front := ShortNode(origin) + " " + fmt(modifiedAt) + ")";
    match Extension(FileName(path))
    case Some(ext) =>
      ParensSplit(front, "." + ext);
      ParensSplit(".", ext);
    case None =>
  }

  lemma MarkerHasParen()
    ensures Parens(MARKER) >= 1
  {
    assert MARKER[1] == '(';
  }

  lemma ParensSplit3(a: string, b: string, c: string)
    ensures Parens(a + b + c) == Parens(a) + Parens(b) + Parens(c)
  {
    ParensSplit(a + b, c);
    ParensSplit(a, b);
  }

  lemma ParensOfConflictPath(fmt: int -> string, path: string, origin: string, modifiedAt: int)
    ensures Parens(ConflictPath(fmt, path, origin, modifiedAt)) > Parens(path)
  {
    ParensSplit3(ConflictHead(path), MARKER, ConflictTail(fmt, path, origin, modifiedAt));
    MarkerHasParen();
    ParensOfHead(path);
    ParensOfTail(fmt, path, origin, modifiedAt);
    ParensOfPath(path);
    ParensOfName(FileName(path));
  }

  /** The conflict copy is stored beside the disputed path, never on top of it. */
  lemma ConflictPathDiffers(fmt: int -> string, path: string, origin: string, modifiedAt: int)
    ensures Normalize(ConflictPath(fmt, path, origin, modifiedAt)) != Normalize(path)
  {
    ParensNormalize(ConflictPath(fmt, path, origin, modifiedAt));
    ParensNormalize(path);
    ParensOfConflictPath(fmt, path, origin, modifiedAt);
  }
}
