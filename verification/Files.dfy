/**
Saving an inbound file (`inboxDest` and `writeNoClobber` in `internal/agent/surface.go`): where it goes,
and under which name when names are taken. Paths are Unix paths.
*/
module Files {
  import opened Numbers
  import Tables
  import opened Wrappers

  type Path = string
  type Data = seq<bv8>

  // ---- Paths ----

  predicate NoSlash(s: string) {
    forall i :: 0 <= i < |s| ==> s[i] != '/'
  }

  // The position after the last slash, or 0.
  function NameStart(p: Path): (k: nat)
    ensures k <= |p| && NoSlash(p[k..]) && (k > 0 ==> p[k - 1] == '/')
  {
    if p == [] || p[|p| - 1] == '/' then |p|
    else
      var k := NameStart(p[..|p| - 1]);
      assert p[k..] == p[..|p| - 1][k..] + [p[|p| - 1]];
      k
  }

  // The path up to and including its last slash.
  function DirOf(p: Path): Path {
    p[..NameStart(p)]
  }

  function TrimSlashes(p: Path): Path {
    if p != [] && p[|p| - 1] == '/' then TrimSlashes(p[..|p| - 1]) else p
  }

  // filepath.Base.
  function Base(p: Path): Path {
    if p == [] then "."
    else
      var q := TrimSlashes(p);
      if q == [] then "/" else q[NameStart(q)..]
  }

  // Where the extension of a file name starts: at its last dot, or at its end.
  function ExtStart(name: string): (k: nat)
    ensures k <= |name|
    ensures if k < |name| then name[k] == '.' && '.' !in name[k + 1..] else '.' !in name
  {
    if '.' !in name then |name|
    else if name[|name| - 1] == '.' then |name| - 1
    else
      assert name == name[..|name| - 1] + [name[|name| - 1]];
      var k := ExtStart(name[..|name| - 1]);
      assert name[k + 1..] == name[..|name| - 1][k + 1..] + [name[|name| - 1]];
      k
  }

  function ExtPos(p: Path): (e: nat)
    ensures NameStart(p) <= e <= |p|
  {
    NameStart(p) + ExtStart(p[NameStart(p)..])
  }

  // filepath.Ext; it looks no further back than the last slash.
  function Ext(p: Path): string {
    p[ExtPos(p)..]
  }

  // The path without its extension.
  function Stem(p: Path): string {
    p[..ExtPos(p)]
  }

  lemma {:induction false} NameStartOfConcat(s: Path, t: string)
    requires NoSlash(t)
    ensures NameStart(s + t) == NameStart(s)
    decreases |t|
  {
    if t == [] {
      assert s + t == s;
    } else {
      var front := t[..|t| - 1];
      assert (s + t)[..|s + t| - 1] == s + front;
      NameStartOfConcat(s, front);
    }
  }

  // ---- Names to try ----

  const TRIES := 1000

  function Candidate(dst: Path, i: nat): Path {
    if i == 0 then dst else Stem(dst) + ("-" + Itoa(i) + Ext(dst))
  }

  lemma StemAndExt(dst: Path)
    ensures Stem(dst) + Ext(dst) == dst && NoSlash(Ext(dst))
  {
    assert forall i :: 0 <= i < |Ext(dst)| ==> Ext(dst)[i] == dst[NameStart(dst)..][ExtPos(dst) - NameStart(dst) + i];
  }

  lemma Middle(stem: string, i: nat, ext: string)
    ensures var p := stem + ("-" + Itoa(i) + ext);
      |p| == |stem| + 1 + |Itoa(i)| + |ext| && p[|stem| + 1..|p| - |ext|] == Itoa(i)
  {
  }

  lemma CandidatesDiffer(dst: Path, i: nat, j: nat)
    requires Candidate(dst, i) == Candidate(dst, j)
    ensures i == j
  {
    StemAndExt(dst);
    Middle(Stem(dst), i, Ext(dst));
    Middle(Stem(dst), j, Ext(dst));
    if i > 0 && j > 0 {
      ItoaInjective(i, j);
    } else {
      assert |dst| == |Stem(dst)| + |Ext(dst)|;
    }
  }

  lemma SameDirectory(stem: Path, t: string, u: string)
    requires NoSlash(t) && NoSlash(u)
    ensures DirOf(stem + t) == DirOf(stem + u)
  {
    NameStartOfConcat(stem, t);
    NameStartOfConcat(stem, u);
    var k := NameStart(stem);
    assert (stem + t)[..k] == stem[..k] == (stem + u)[..k];
  }

  lemma NumberedSuffix(i: nat, ext: string)
    requires NoSlash(ext)
    ensures NoSlash("-" + Itoa(i) + ext)
  {
    assert AllDigits(Itoa(i));
  }

  lemma CandidatesStayInDirectory(dst: Path, i: nat)
    ensures DirOf(Candidate(dst, i)) == DirOf(dst)
  {
    StemAndExt(dst);
    if i > 0 {
      NumberedSuffix(i, Ext(dst));
      SameDirectory(Stem(dst), "-" + Itoa(i) + Ext(dst), Ext(dst));
    }
  }

  // A path that names a directory: empty, or ending in a slash.
  predicate IsDir(dir: Path) {
    dir == [] || dir[|dir| - 1] == '/'
  }

  lemma NameStartAfterDir(dir: Path, name: string)
    requires IsDir(dir) && NoSlash(name)
    ensures NameStart(dir + name) == |dir| && (dir + name)[|dir|..] == name
  {
    NameStartOfConcat(dir, name);
  }

  lemma {:induction false} ExtStartAtDot(base: string, ext: string)
    requires '.' !in ext
    ensures ExtStart(base + "." + ext) == |base|
    decreases |ext|
  {
    var name := base + "." + ext;
    assert name[|base|] == '.';
    if ext != [] {
      var front := ext[..|ext| - 1];
      assert name[|name| - 1] == ext[|ext| - 1] && ext[|ext| - 1] in ext;
      assert name[..|name| - 1] == base + "." + front;
      assert forall c :: c in front ==> c in ext;
      ExtStartAtDot(base, front);
    }
  }

  lemma DottedName(base: string, ext: string)
    requires NoSlash(base) && NoSlash(ext)
    ensures NoSlash(base + "." + ext)
  {
  }

  lemma Regroup(dir: Path, base: string, ext: string)
    ensures dir + base + ("." + ext) == dir + (base + "." + ext)
  {
  }

  // Where the extension begins.
  lemma ExtPosAtDot(dir: Path, base: string, ext: string)
    requires IsDir(dir) && NoSlash(base) && NoSlash(ext) && '.' !in ext
    ensures ExtPos(dir + base + ("." + ext)) == |dir + base|
  {
    DottedName(base, ext);
    Regroup(dir, base, ext);
    NameStartAfterDir(dir, base + "." + ext);
    ExtStartAtDot(base, ext);
  }

  /** What a numbered name looks like: the number goes before the extension, which begins at the last dot of the file
      name, or at the end of a name without a dot. */
  lemma NumberBeforeExtension(dir: Path, base: string, ext: string, i: nat)
    requires IsDir(dir) && NoSlash(base) && NoSlash(ext) && '.' !in ext && i > 0
    ensures Candidate(dir + base + ("." + ext), i) == dir + base + "-" + Itoa(i) + ("." + ext)
    ensures Candidate(dir + base + ("." + ext), 0) == dir + base + ("." + ext)
  {
    ExtPosAtDot(dir, base, ext);
    NumberedAt(dir + base, "." + ext, i);
  }

  lemma NumberAtEnd(dir: Path, base: string, i: nat)
    requires IsDir(dir) && NoSlash(base) && '.' !in base && i > 0
    ensures Candidate(dir + base, i) == dir + base + "-" + Itoa(i)
  {
    NameStartAfterDir(dir, base);
    assert dir + base + "" == dir + base;
    NumberedAt(dir + base, "", i);
    assert dir + base + "-" + Itoa(i) + "" == dir + base + "-" + Itoa(i);
  }

  lemma NumberedAt(stem: Path, ext: string, i: nat)
    requires ExtPos(stem + ext) == |stem| && i > 0
    ensures Candidate(stem + ext, i) == stem + "-" + Itoa(i) + ext
  {
    assert Stem(stem + ext) == stem && Ext(stem + ext) == ext;
  }

  // ---- The directory ----

  ghost function FilesBeside(files: map<Path, Data>, dst: Path): set<Path> {
    set p | p in files && DirOf(p) == DirOf(dst)
  }

  ghost function Candidates(dst: Path, n: nat): (s: set<Path>)
    ensures forall p :: p in s <==> exists i: nat :: i < n && p == Candidate(dst, i)
  {
    if n == 0 then {} else Candidates(dst, n - 1) + {Candidate(dst, n - 1)}
  }

  lemma {:induction false} CandidatesCount(dst: Path, n: nat)
    ensures |Candidates(dst, n)| == n
  {
    if n > 0 {
      CandidatesCount(dst, n - 1);
      if Candidate(dst, n - 1) in Candidates(dst, n - 1) {
        var i: nat :| i < n - 1 && Candidate(dst, n - 1) == Candidate(dst, i);
        CandidatesDiffer(dst, n - 1, i);
      }
    }
  }

  // With fewer files in the directory than names to try, a name is free.
  lemma SomeNameIsFree(files: map<Path, Data>, dst: Path)
    requires |FilesBeside(files, dst)| < TRIES
    ensures exists i: nat :: i < TRIES && Candidate(dst, i) !in files
  {
    if forall i: nat :: i < TRIES ==> Candidate(dst, i) in files {
      forall p | p in Candidates(dst, TRIES)
        ensures p in FilesBeside(files, dst)
      {
        var i: nat :| i < TRIES && p == Candidate(dst, i);
        CandidatesStayInDirectory(dst, i);
      }
      CandidatesCount(dst, TRIES);
      Tables.SubsetSize(Candidates(dst, TRIES), FilesBeside(files, dst));
      assert false;
    }
  }

  // What happens to a file that is created: opening it may be refused for another reason than that the name
  // is taken, a write may stop after `written` bytes, and closing may fail after a full write.
  datatype Fate = Fine | Refused | CutShort(written: nat) | NotClosed

  datatype SaveResult = Saved(path: Path) | OpenFailed | WriteFailed | CloseFailed | TooMany

  function AfterWrite(data: Data, fate: Fate): Data {
    if fate.CutShort? && fate.written < |data| then data[..fate.written] else data
  }

  predicate TakenBefore(files: map<Path, Data>, dst: Path, n: nat) {
    forall i: nat :: i < n ==> Candidate(dst, i) in files
  }

  class Disk {
    var files: map<Path, Data>

    // writeNoClobber. At most one file is added, under the first free name; no other file changes.
    method WriteNoClobber(dst: Path, data: Data, fate: Path -> Fate) returns (r: SaveResult)
      modifies this
      ensures r.TooMany? <==> TakenBefore(old(files), dst, 1000)
      ensures |FilesBeside(old(files), dst)| < 1000 ==> !r.TooMany?
      ensures !r.TooMany? ==> exists n: nat ::
        && n < 1000 && TakenBefore(old(files), dst, n)
        && FirstFree(old(files), files, Candidate(dst, n), data, fate(Candidate(dst, n)), r)
      ensures r.TooMany? ==> files == old(files)
    {
      if |FilesBeside(files, dst)| < TRIES {
        SomeNameIsFree(files, dst);
      }
      for i := 0 to TRIES
        invariant files == old(files) && TakenBefore(files, dst, i)
      {
        var p := Candidate(dst, i);
        if p in files {
          continue;
        }
        r := Create(p, data, fate(p));
        return;
      }
      r := TooMany;
    }

    // The first free name: open, write, close.
    method Create(p: Path, data: Data, fate: Fate) returns (r: SaveResult)
      requires p !in files
      modifies this
      ensures FirstFree(old(files), files, p, data, fate, r) && !r.TooMany?
    {
      if fate.Refused? {
        return OpenFailed;
      }
      files := files[p := AfterWrite(data, fate)];
      r := match fate
        case CutShort(_) => WriteFailed
        case NotClosed => CloseFailed
        case _ => Saved(p);
    }
  }

  // A free name gets exactly the data when the file is reported saved.
  ghost predicate FirstFree(
    before: map<Path, Data>, after: map<Path, Data>, p: Path, data: Data, fate: Fate, r: SaveResult)
  {
    && p !in before
    && (r.Saved? <==> fate.Fine?) && (r.OpenFailed? <==> fate.Refused?) && (r.WriteFailed? <==> fate.CutShort?)
    && (r.Saved? ==> r == Saved(p) && p in after && after[p] == data)
    && (r.OpenFailed? ==> after == before)
    && (r.CloseFailed? ==> p in after && after[p] == data)
    && (r.WriteFailed? ==> p in after && after[p] == if fate.written < |data| then data[..fate.written] else data)
    && after.Keys <= before.Keys + {p}
    && (forall q :: q in before ==> q in after && after[q] == before[q])
  }

  // ---- The destination ----

  predicate UnsafeFileName(name: string) {
    name == "" || name == "." || name == ".." || name == "/" || !NoSlash(name)
  }

  // A clean absolute path, as filepath.Abs returns it.
  predicate IsAbs(dir: Path) {
    dir == "/" || (|dir| > 1 && dir[0] == '/' && dir[|dir| - 1] != '/')
  }

  // filepath.Join of such a path and a single safe name.
  function JoinName(dir: Path, name: string): Path {
    if dir == "/" then "/" + name else dir + "/" + name
  }

  // filepath.Dir of an absolute path: without the slash, except of the root.
  function Dir(p: Path): Path
    requires NameStart(p) > 0
  {
    if NameStart(p) == 1 then "/" else p[..NameStart(p) - 1]
  }

  // inboxDest: None stands for its errors.
  function InboxDest(inbox: Path, filename: string, key: string): Option<Path>
    requires IsAbs(inbox)
  {
    var name := if UnsafeFileName(Base(filename)) then Base(key) else Base(filename);
    if UnsafeFileName(name) then None
    else
      var dst := JoinName(inbox, name);
      if NameStart(dst) > 0 && Dir(dst) == inbox && inbox + "/" <= dst then Some(dst) else None
  }

  predicate AllSlashes(s: string) {
    forall i :: 0 <= i < |s| ==> s[i] == '/'
  }

  lemma {:induction false} TrimAllSlashes(p: Path, slashes: string)
    requires AllSlashes(slashes) && (p != [] ==> p[|p| - 1] != '/')
    ensures TrimSlashes(p + slashes) == p
    decreases |slashes|
  {
    if slashes == [] {
      assert p + slashes == p;
    } else {
      var fewer := slashes[..|slashes| - 1];
      assert (p + slashes)[|p + slashes| - 1] == '/' && (p + slashes)[..|p + slashes| - 1] == p + fewer;
      TrimAllSlashes(p, fewer);
    }
  }

  /** What a base name is: the last element of the path, whatever slashes follow it; of slashes only, one slash; of
      the empty path, a dot. */
  lemma BaseIsLast(dir: Path, name: string, slashes: string)
    requires IsDir(dir) && name != [] && NoSlash(name) && AllSlashes(slashes)
    ensures Base(dir + name + slashes) == name
    ensures slashes != [] ==> Base(slashes) == "/"
    ensures Base("") == "."
  {
    TrimAllSlashes(dir + name, slashes);
    NameStartAfterDir(dir, name);
    assert [] + slashes == slashes;
    TrimAllSlashes([], slashes);
  }

  lemma BaseHasNoSlash(p: Path)
    ensures Base(p) != [] && (Base(p) == "/" || NoSlash(Base(p)))
  {
    var q := TrimSlashes(p);
    TrimmedEnd(p);
    if q != [] {
      assert NameStart(q) < |q|;
    }
  }

  lemma {:induction false} TrimmedEnd(p: Path)
    ensures TrimSlashes(p) != [] ==> TrimSlashes(p)[|TrimSlashes(p)| - 1] != '/'
    decreases |p|
  {
    if p != [] && p[|p| - 1] == '/' {
      TrimmedEnd(p[..|p| - 1]);
    }
  }

  lemma JoinedName(inbox: Path, name: string)
    requires IsAbs(inbox) && !UnsafeFileName(name)
    ensures var dst := JoinName(inbox, name);
      && NameStart(dst) > 0 && Dir(dst) == inbox && (inbox + "/" <= dst <==> inbox != "/")
      && (inbox != "/" ==> DirOf(dst) == inbox + "/" && dst[|inbox| + 1..] == name)
  {
    var dst := JoinName(inbox, name);
    var dir := if inbox == "/" then "/" else inbox + "/";
    assert dst == dir + name;
    NameStartOfConcat(dir, name);
    assert NameStart(dir) == |dir|;
    assert dst[..|dir|] == dir && dst[|dir|..] == name;
    if inbox == "/" {
      assert dst[1] == name[0] != '/';
    } else {
      assert dst[..|inbox|] == inbox;
    }
  }

  // A destination is a name directly inside the inbox. There is one exactly when the reference names a
  // file other than `.` and `..`, in either field, and the inbox is not the root directory.
  lemma DestIsInInbox(inbox: Path, filename: string, key: string)
    requires IsAbs(inbox)
    ensures InboxDest(inbox, filename, key).Some? <==>
      inbox != "/" && (Base(filename) !in {".", "..", "/"} || Base(key) !in {".", "..", "/"})
    ensures InboxDest(inbox, filename, key).Some? ==>
      var dst := InboxDest(inbox, filename, key).value;
      && DirOf(dst) == inbox + "/" && !UnsafeFileName(dst[|inbox| + 1..])
      && dst == inbox + "/" + if Base(filename) in {".", "..", "/"} then Base(key) else Base(filename)
  {
    BaseHasNoSlash(filename);
    BaseHasNoSlash(key);
    var name := if UnsafeFileName(Base(filename)) then Base(key) else Base(filename);
    if !UnsafeFileName(name) {
      JoinedName(inbox, name);
    }
  }
}
