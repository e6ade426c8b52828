/** The plugin file sandbox (internal/plugin fs.go and Host.capsFor in host.go): reads and writes
    confined to one directory per plugin, over one symlink-free tree shared by all of them. */
module Sandbox {
  import opened Strings
  import opened Paths
  import opened PathGuard
  import opened FileTree

  const MAX_FILE_BYTES := 0x80_0000

  datatype FsError = PathEscape | FileTooLarge | IoError

  datatype Result = Data(data: string) | Written | Refused(error: FsError)

  /** Where a name leads: outside the sandbox, or to its normalised path inside. */
  datatype Target = Outside | At(rel: Location)

  function TargetOf(base: string, name: string): Target {
    match Resolve(base, name)
    case Escape => Outside
    case Inside(full) =>
      if |Stack(base)| <= |Stack(full)| then At(Stack(full)[|Stack(base)|..]) else Outside
  }

  // ---------------------------------------------------------------- reads and writes of a tree

  /** Reading below the directory `base`, which is created if need be. */
  function ReadAt(t: Tree, base: Location, target: Target): (Tree, Result) {
    match target
    case Outside => (t, Refused(PathEscape))
    case At(rel) =>
      if Blocked(t, base) then (t, Refused(IoError))
      else
        var t1 := WithDirs(t, base);
        match FileTree.At(t1, base + rel)
        case There(File(d)) => (t1, if |d| > MAX_FILE_BYTES then Refused(FileTooLarge) else Data(d))
        case _ => (t1, Refused(IoError))
  }

  /** Writing below the directory `base`: never the base itself, never over a directory. */
  function WriteAt(t: Tree, base: Location, target: Target, data: string): (Tree, Result) {
    if |data| > MAX_FILE_BYTES then (t, Refused(FileTooLarge))
    else match target
      case Outside => (t, Refused(PathEscape))
      case At(rel) =>
        if Blocked(t, base) then (t, Refused(IoError))
        else
          var t1 := WithDirs(t, base);
          if rel == [] then (t1, Refused(PathEscape))
          else if Blocked(t1, base + Parent(rel)) then (t1, Refused(IoError))
          else
            var t2 := WithDirs(t1, base + Parent(rel));
            if IsDir(t2, base + rel) then (t2, Refused(IoError))
            else (t2[base + rel := File(data)], Written)
  }

  /** What reading a target answers, without the directory it may create. */
  function Reads(t: Tree, base: Location, target: Target): Result { ReadAt(t, base, target).1 }

  /** What a read answers, from the tree as it is: the data of an existing file of at most 8 MiB below the
      sandbox; a name that leads outside is told apart from a file that is too large and from the rest. */
  lemma ReadRule(t: Tree, base: Location, target: Target)
    ensures forall d :: Reads(t, base, target) == Data(d) <==>
              target.At? && !Blocked(t, base) && FileTree.At(t, base + target.rel) == There(File(d)) && |d| <= 8388608
    ensures Reads(t, base, target) == Refused(PathEscape) <==> target == Outside
    ensures Reads(t, base, target) == Refused(FileTooLarge) <==>
            target.At? && !Blocked(t, base) && IsFile(t, base + target.rel) && |t[base + target.rel].data| > 8388608
    ensures Reads(t, base, target) != Written
  {
    if target.At? { WithDirsAt(t, base, base + target.rel); }
  }

  /** When a write is stored, from the tree as it is, and which refusal it meets otherwise. */
  lemma WriteRule(t: Tree, base: Location, target: Target, data: string)
    ensures var r := WriteAt(t, base, target, data).1;
            && (r == Written <==>
                  && |data| <= 8388608 && target.At? && target.rel != [] && !Blocked(t, base)
                  && !Blocked(t, base + Parent(target.rel)) && !IsDir(t, base + target.rel))
            && (r == Refused(FileTooLarge) <==> |data| > 8388608)
            && (r == Refused(PathEscape) <==>
                  |data| <= 8388608 && (target == Outside || (target.rel == [] && !Blocked(t, base))))
            && !r.Data?
  {
    if target.At? && target.rel != [] {
      var t1, d := WithDirs(t, base), base + Parent(target.rel);
      SameFiles(t, base, d);
      WithDirsAt(t, base, base + target.rel);
      WithDirsAt(t1, d, base + target.rel);
      assert !(base + target.rel <= d) && !(base + target.rel <= base);
    }
  }

  lemma SameFiles(t: Tree, base: Location, d: Location)
    ensures Blocked(WithDirs(t, base), d) <==> Blocked(t, d)
  {
    forall l ensures IsFile(WithDirs(t, base), l) == IsFile(t, l) { WithDirsAt(t, base, l); }
    forall i | 0 <= i <= |d| ensures IsFile(WithDirs(t, base), d[..i]) == IsFile(t, d[..i]) {}
  }

  /** What a stored write changes: the file is there with the data, the directories on the way exist, and
      nothing else is different. */
  lemma WriteChanges(t: Tree, base: Location, target: Target, data: string, l: Location)
    requires WriteAt(t, base, target, data).1 == Written
    ensures FileTree.At(WriteAt(t, base, target, data).0, l) ==
            if l == base + target.rel then There(File(data))
            else if l <= base + Parent(target.rel) && l !in t then There(Dir)
            else FileTree.At(t, l)
  {
    var d := base + Parent(target.rel);
    WithDirsAt(t, base, l);
    WithDirsAt(WithDirs(t, base), d, l);
    if l <= base { assert base <= d && l <= d by { BelowTrans(l, base, d); } }
  }

  lemma BelowTrans(a: Location, b: Location, c: Location)
    requires a <= b <= c
    ensures a <= c
  {
    assert c[..|b|][..|a|] == c[..|a|];
  }

  lemma TargetReadsBack(t: Tree, base: Location, target: Target, data: string)
    requires WriteAt(t, base, target, data).1 == Written
    ensures |data| <= MAX_FILE_BYTES
    ensures Reads(WriteAt(t, base, target, data).0, base, target) == Data(data)
  {
  }

  lemma DirsReadAlike(t: Tree, base: Location, d: Location, other: Target)
    ensures Reads(WithDirs(t, base + d), base, other) == Reads(t, base, other)
  {
    var u := WithDirs(t, base + d);
    forall l ensures IsFile(u, l) == IsFile(t, l) { WithDirsAt(t, base + d, l); }
    assert Blocked(u, base) <==> Blocked(t, base);
    if other.At? {
      var l := base + other.rel;
      WithDirsAt(t, base + d, l);
      WithDirsAt(t, base, l);
      WithDirsAt(u, base, l);
    }
  }

  lemma PutReadsAlike(t: Tree, base: Location, rel: Location, data: string, other: Target)
    requires rel != [] && other != At(rel) && !Blocked(t, base)
    ensures Reads(t[base + rel := File(data)], base, other) == Reads(t, base, other)
  {
    var u := t[base + rel := File(data)];
    forall i | 0 <= i <= |base| ensures !IsFile(u, base[..i]) {
      assert base[..i] != base + rel && !IsFile(t, base[..i]);
    }
    if other.At? {
      assert (base + rel)[|base|..] == rel && (base + other.rel)[|base|..] == other.rel;
      WithDirsAt(t, base, base + other.rel);
      WithDirsAt(u, base, base + other.rel);
    }
  }

  /** The sandbox is a map keyed by normalised path: after a write, the target written reads as the
      data and every other target as before; a refused write, and a read, change no target. */
  lemma SandboxIsMap(t: Tree, base: Location, target: Target, data: string, other: Target)
    ensures Reads(WriteAt(t, base, target, data).0, base, other) ==
            if WriteAt(t, base, target, data).1 == Written && other == target then Data(data)
            else Reads(t, base, other)
    ensures Reads(ReadAt(t, base, target).0, base, other) == Reads(t, base, other)
  {
    assert base + [] == base;
    DirsReadAlike(t, base, [], other);
    if target.At? && target.rel != [] {
      var t1, d := WithDirs(t, base), Parent(target.rel);
      DirsReadAlike(t1, base, d, other);
      if WriteAt(t, base, target, data).1 == Written {
        if other == target {
          TargetReadsBack(t, base, target, data);
        } else {
          StaysUnblocked(t, base, d);
          PutReadsAlike(WithDirs(t1, base + d), base, target.rel, data, other);
        }
      }
    }
  }

  lemma StaysUnblocked(t: Tree, base: Location, d: Location)
    requires !Blocked(t, base)
    ensures !Blocked(WithDirs(WithDirs(t, base), base + d), base)
  {
    forall i | 0 <= i <= |base| ensures !IsFile(WithDirs(WithDirs(t, base), base + d), base[..i]) {
      assert !IsFile(t, base[..i]);
      WithDirsAt(t, base, base[..i]);
      WithDirsAt(WithDirs(t, base), base + d, base[..i]);
    }
  }

  // ---------------------------------------------------------------- paths become locations

  lemma TargetLocation(cwd: Location, base: string, name: string)
    requires Cleaned(base) && OrdinaryBase(base) && Resolve(base, name).Inside?
    ensures var full := Resolve(base, name).path;
            && Cleaned(full) && IsAbs(full) == IsAbs(base)
            && TargetOf(base, name).At? && Stack(full) == Stack(base) + TargetOf(base, name).rel
            && Proper(TargetOf(base, name).rel)
            && Locate(cwd, full) == Locate(cwd, base) + TargetOf(base, name).rel
  {
    JoinedStack(base, name);
    var full := JoinPath(base, name);
    WithinIffComponents(full, base);
    var rel := Stack(full)[|Stack(base)|..];
    StackCanonical(full);
    assert Stack(full) == Stack(base) + rel;
    assert forall i | 0 <= i < |rel| :: rel[i] == Stack(full)[|Stack(base)| + i];
    assert Stack(full)[|Stack(base)| - 1] != "..";
    var start := if IsAbs(base) then [] else cwd;
    CleanSameLocation(cwd, base);
    CleanSameLocation(cwd, full);
    WalkConcat(start, Stack(base), rel);
    WalkNames(Walk(start, Stack(base)), rel);
  }

  lemma DirectoryLocation(cwd: Location, p: string, upper: seq<string>, last: string)
    requires Cleaned(p) && Stack(p) == upper + [last] && last != ".."
    ensures Cleaned(DirPath(p)) && IsAbs(DirPath(p)) == IsAbs(p) && Stack(DirPath(p)) == upper
    ensures Locate(cwd, DirPath(p)) == Parent(Locate(cwd, p))
  {
    DirPathStack(p, upper, last);
    var start := if IsAbs(p) then [] else cwd;
    StackCanonical(p);
    assert Stack(p)[|upper|] == last;
    CleanSameLocation(cwd, p);
    CleanSameLocation(cwd, DirPath(p));
    WalkSnoc(start, upper, last);
    assert Parent(Walk(start, upper) + [last]) == Walk(start, upper);
  }

  lemma LastOfTarget(stack: seq<string>, rel: Location)
    requires stack != [] && stack[|stack| - 1] != ".." && Proper(rel)
    ensures var s := stack + rel;
            var upper, last := s[..|s| - 1], s[|s| - 1];
            s == upper + [last] && last != ".." && (stack <= upper <==> rel != [])
  {
    var s := stack + rel;
    if rel != [] {
      assert s[|s| - 1] == rel[|rel| - 1] && rel[|rel| - 1] in rel;
      assert s[..|s| - 1][..|stack|] == stack;
    }
  }

  /** The directory a write creates: inside the sandbox, except that the sandbox itself has its
      directory outside. */
  lemma DirectoryOf(cwd: Location, base: string, full: string, rel: Location)
    requires Cleaned(base) && OrdinaryBase(base) && Cleaned(full) && IsAbs(full) == IsAbs(base)
    requires Stack(full) == Stack(base) + rel && Proper(rel)
    ensures Cleaned(DirPath(full)) && (Within(DirPath(full), base) <==> rel != [])
    ensures Locate(cwd, DirPath(full)) == Parent(Locate(cwd, full))
  {
    LastOfTarget(Stack(base), rel);
    var s := Stack(base) + rel;
    DirectoryLocation(cwd, full, s[..|s| - 1], s[|s| - 1]);
    WithinIffComponents(DirPath(full), base);
  }

  // ---------------------------------------------------------------- names with one normal form

  /** A name appended to a base leads where it leads from the base's directory. */
  lemma DestinationLocation(cwd: Location, base: string, name: string)
    requires base != "" && !IsAbs(name)
    ensures Locate(cwd, Destination(base, name)) == Locate(Locate(cwd, base), name)
  {
    SplitConcat(base, name, SEP);
    WalkConcat(if IsAbs(base) then [] else cwd, Split(base, SEP), Split(name, SEP));
  }

  /** Names with the same normal form are one target, under any base. */
  lemma SameFormSameTarget(base: string, n: string, m: string)
    requires Cleaned(base) && Clean(n) == Clean(m)
    ensures TargetOf(base, n) == TargetOf(base, m)
  {
    CleanedSplit(base);
    CleanIdempotent(n);
    CleanIdempotent(m);
    if !IsAbs(n) {
      forall cwd | Proper(cwd) ensures Locate(cwd, Destination(base, n)) == Locate(cwd, Destination(base, m)) {
        DestinationLocation(cwd, base, n);
        DestinationLocation(cwd, base, m);
        CleanSameLocation(Locate(cwd, base), n);
        CleanSameLocation(Locate(cwd, base), m);
      }
      CleanCharacterised(Destination(base, n), Destination(base, m));
      JoinedStack(base, n);
      JoinedStack(base, m);
    }
  }

  /** Two accepted names are one target iff their destinations are one location from everywhere. */
  lemma SameTargetIff(base: string, n: string, m: string)
    requires Cleaned(base) && OrdinaryBase(base)
    requires Resolve(base, n).Inside? && Resolve(base, m).Inside?
    ensures TargetOf(base, n) == TargetOf(base, m) <==>
            forall cwd | Proper(cwd) :: Locate(cwd, Destination(base, n)) == Locate(cwd, Destination(base, m))
  {
    JoinedStack(base, n);
    JoinedStack(base, m);
    TargetLocation([], base, n);
    TargetLocation([], base, m);
    CleanCharacterised(Destination(base, n), Destination(base, m));
    var fullN, fullM := JoinPath(base, n), JoinPath(base, m);
    assert fullN == Render(IsAbs(base), Stack(fullN)) && fullM == Render(IsAbs(base), Stack(fullM));
  }

  /** What a write stored is within the size bound and reads back unchanged, under the name it was
      written by and under every other name with the same normal form. */
  lemma WriteThenRead(t: Tree, cwd: Location, base: string, n: string, m: string, data: string)
    requires Cleaned(base) && Clean(n) == Clean(m)
    requires WriteAt(t, Locate(cwd, base), TargetOf(base, n), data).1 == Written
    ensures |data| <= MAX_FILE_BYTES
    ensures var u := WriteAt(t, Locate(cwd, base), TargetOf(base, n), data).0;
            Reads(u, Locate(cwd, base), TargetOf(base, m)) == Data(data)
  {
    SameFormSameTarget(base, n, m);
    TargetReadsBack(t, Locate(cwd, base), TargetOf(base, n), data);
  }

  // ---------------------------------------------------------------- reads and writes by path

  /** Reading what a name resolved to, for any base. */
  function ReadPath(t: Tree, cwd: Location, base: string, resolved: Resolved): (Tree, Result) {
    match resolved
    case Escape => (t, Refused(PathEscape))
    case Inside(full) =>
      if Blocked(t, Locate(cwd, base)) then (t, Refused(IoError))
      else
        var t1 := WithDirs(t, Locate(cwd, base));
        match FileTree.At(t1, Locate(cwd, full))
        case There(File(d)) => (t1, if |d| > MAX_FILE_BYTES then Refused(FileTooLarge) else Data(d))
        case _ => (t1, Refused(IoError))
  }

  /** os.WriteFile: needs the directory, and fails over a directory. */
  function PutAt(t: Tree, loc: Location, data: string): (Tree, Result) {
    if IsDir(t, Parent(loc)) && !IsDir(t, loc) then (t[loc := File(data)], Written) else (t, Refused(IoError))
  }

  function WritePath(t: Tree, cwd: Location, base: string, resolved: Resolved, data: string): (Tree, Result) {
    if |data| > MAX_FILE_BYTES then (t, Refused(FileTooLarge))
    else match resolved
      case Escape => (t, Refused(PathEscape))
      case Inside(full) =>
        if Blocked(t, Locate(cwd, base)) then (t, Refused(IoError))
        else
          var t1, dir := WithDirs(t, Locate(cwd, base)), Locate(cwd, DirPath(full));
          if Blocked(t1, dir) then (t1, Refused(IoError))
          else
            var t2 := WithDirs(t1, dir);
            if !Within(DirPath(full), base) then (t2, Refused(PathEscape))
            else PutAt(t2, Locate(cwd, full), data)
  }

  /** For a base that ends in an ordinary name, operations by path are those of the sandbox below
      its directory. */
  lemma OrdinaryRead(t: Tree, cwd: Location, base: string, name: string)
    requires Cleaned(base) && OrdinaryBase(base)
    ensures ReadPath(t, cwd, base, Resolve(base, name)) == ReadAt(t, Locate(cwd, base), TargetOf(base, name))
  {
    if Resolve(base, name).Inside? { TargetLocation(cwd, base, name); }
  }

  lemma OrdinaryWrite(t: Tree, cwd: Location, base: string, name: string, data: string)
    requires WellFormed(t) && Cleaned(base) && OrdinaryBase(base)
    ensures WritePath(t, cwd, base, Resolve(base, name), data) ==
            WriteAt(t, Locate(cwd, base), TargetOf(base, name), data)
  {
    var loc := Locate(cwd, base);
    if Resolve(base, name).Inside? {
      TargetLocation(cwd, base, name);
      if !Blocked(t, loc) {
        WithDirsWellFormed(t, loc);
        WrittenByPath(WithDirs(t, loc), cwd, base, Resolve(base, name).path, TargetOf(base, name).rel);
      }
    }
  }

  lemma WrittenByPath(t1: Tree, cwd: Location, base: string, full: string, rel: Location)
    requires WellFormed(t1) && Cleaned(base) && OrdinaryBase(base) && IsDir(t1, Locate(cwd, base))
    requires Cleaned(full) && IsAbs(full) == IsAbs(base) && Stack(full) == Stack(base) + rel && Proper(rel)
    requires Locate(cwd, full) == Locate(cwd, base) + rel
    ensures Within(DirPath(full), base) <==> rel != []
    ensures rel == [] ==>
              !Blocked(t1, Locate(cwd, DirPath(full))) && WithDirs(t1, Locate(cwd, DirPath(full))) == t1
    ensures rel != [] ==>
              Locate(cwd, DirPath(full)) == Locate(cwd, base) + Parent(rel) == Parent(Locate(cwd, full))
    ensures !Blocked(t1, Locate(cwd, DirPath(full))) ==>
              IsDir(WithDirs(t1, Locate(cwd, DirPath(full))), Parent(Locate(cwd, full)))
  {
    DirectoryOf(cwd, base, full, rel);
    DirectoryInSandbox(t1, Locate(cwd, base), rel);
    var dir := Locate(cwd, DirPath(full));
    if !Blocked(t1, dir) { WithDirsWellFormed(t1, dir); }
  }

  /** Under `.` or `/` every read and every write is refused. */
  lemma NoSandboxAtTheTop(t: Tree, cwd: Location, base: string, name: string, data: string)
    requires WellFormed(t) && Cleaned(base) && Stack(base) == []
    ensures ReadPath(t, cwd, base, Resolve(base, name)).1.Refused?
    ensures WritePath(t, cwd, base, Resolve(base, name), data).1.Refused?
  {
    if Resolve(base, name).Inside? {
      var full, loc := Resolve(base, name).path, Locate(cwd, base);
      TopAcceptsItself(base, name);
      if !Blocked(t, loc) {
        WithDirsWellFormed(t, loc);
        var t1, dir := WithDirs(t, loc), Locate(cwd, DirPath(full));
        WithDirsAt(t1, dir, loc);
      }
    }
  }

  lemma TopAcceptsItself(base: string, name: string)
    requires Cleaned(base) && Stack(base) == [] && Resolve(base, name).Inside?
    ensures Resolve(base, name).path == base
  {
    CleanedSplit(base);
    JoinedStack(base, name);
    if base + [SEP] <= JoinPath(base, name) { TopPrefix(base, JoinPath(base, name)); }
  }

  /** A cleaned path does not start with `//` or `./`. */
  lemma TopPrefix(base: string, full: string)
    requires Cleaned(base) && Stack(base) == [] && base + [SEP] <= full
    ensures !Cleaned(full)
  {
    CleanedSplit(base);
    var rest := full[2..];
    assert full == base + [SEP] + rest;
    SplitConcat(base, rest, SEP);
    TopSplit(base);
    if Cleaned(full) { NoSkippedComponent(full); }
  }

  lemma NoSkippedComponent(p: string)
    requires Cleaned(p)
    ensures var cs := Split(p, SEP);
            if IsAbs(p) then |cs| >= 3 ==> cs[1] != "" else |cs| >= 2 ==> cs[0] != "."
  {
    CleanedSplit(p);
    StackCanonical(p);
    if Stack(p) == [] { TopSplit(p); }
  }

  lemma TopSplit(base: string)
    requires Cleaned(base) && Stack(base) == []
    ensures Split(base, SEP) == if IsAbs(base) then ["", ""] else ["."]
  {
    if IsAbs(base) {
      SplitConcat("", "", SEP);
      assert base == "" + [SEP] + "";
    } else {
      SplitSingle(".", SEP);
    }
  }

  // ---------------------------------------------------------------- the capability

  /** The operating system's symlink-free view of the tree, from one working directory. */
  class FileSystem {
    var tree: Tree
    const cwd: Location

    ghost predicate Valid()
      reads this
    {
      WellFormed(tree) && IsDir(tree, cwd)
    }

    constructor (cwd: Location)
      requires Proper(cwd)
      ensures Valid() && this.cwd == cwd
    {
      this.cwd := cwd;
      this.tree := WithDirs(map[[] := Dir], cwd);
      new;
      RootedTree(cwd);
    }

    /** os.MkdirAll */
    method MkdirAll(p: string) returns (ok: bool)
      requires Valid() && Cleaned(p)
      modifies this
      ensures Valid()
      ensures ok <==> !Blocked(old(tree), Locate(cwd, p))
      ensures tree == if ok then WithDirs(old(tree), Locate(cwd, p)) else old(tree)
      ensures ok ==> IsDir(tree, Locate(cwd, p))
    {
      var loc := Locate(cwd, p);
      ok := !Blocked(tree, loc);
      if ok {
        WithDirsWellFormed(tree, loc);
        WithDirsAt(tree, loc, cwd);
        tree := WithDirs(tree, loc);
      }
    }

    /** filepath.EvalSymlinks, where there are no symlinks: the path must lead somewhere. */
    method EvalSymlinks(p: string) returns (resolved: string, ok: bool)
      requires Valid() && Cleaned(p)
      ensures ok <==> Locate(cwd, p) in tree
      ensures resolved == p
    {
      CleanedLocate(tree, cwd, p);
      resolved, ok := Clean(p), TreeLocate(tree, cwd, p).Reached?;
    }

    method Stat(p: string) returns (r: Found)
      requires Valid() && Cleaned(p)
      ensures r == FileTree.At(tree, Locate(cwd, p))
    {
      r := FileTree.At(tree, Locate(cwd, p));
    }

    method Put(p: string, data: string) returns (ok: bool)
      requires Valid() && Cleaned(p)
      modifies this
      ensures Valid()
      ensures (tree, if ok then Written else Refused(IoError)) == PutAt(old(tree), Locate(cwd, p), data)
    {
      var loc := Locate(cwd, p);
      ok := IsDir(tree, Parent(loc)) && !IsDir(tree, loc);
      if ok {
        PutFileWellFormed(tree, loc, data);
        tree := tree[loc := File(data)];
      }
    }
  }

  lemma RootedTree(cwd: Location)
    ensures WellFormed(WithDirs(map[[] := Dir], cwd)) && IsDir(WithDirs(map[[] := Dir], cwd), cwd)
  {
    var t: Tree := map[[] := Dir];
    assert HasParent(t, []);
    WithDirsWellFormed(t, cwd);
  }

  class SandboxedFS {
    const fs: FileSystem
    const base: string

    ghost predicate Valid()
      reads fs
    {
      fs.Valid() && Cleaned(base)
    }

    constructor (fs: FileSystem, base: string)
      requires fs.Valid()
      ensures Valid() && this.fs == fs && this.base == Clean(base)
    {
      this.fs := fs;
      this.base := Clean(base);
      CleanIdempotent(base);
    }

    method ReadFile(name: string) returns (r: Result)
      requires Valid()
      modifies fs
      ensures Valid()
      ensures (fs.tree, r) == ReadPath(old(fs.tree), fs.cwd, base, Resolve(base, name))
      ensures OrdinaryBase(base) ==>
                (fs.tree, r) == ReadAt(old(fs.tree), Locate(fs.cwd, base), TargetOf(base, name))
      ensures Stack(base) == [] ==> r.Refused?
    {
      ghost var t := fs.tree;
      if OrdinaryBase(base) { OrdinaryRead(t, fs.cwd, base, name); }
      if Stack(base) == [] { NoSandboxAtTheTop(t, fs.cwd, base, name, ""); }
      var resolved := Resolve(base, name);
      if resolved == Escape {
        return Refused(PathEscape);
      }
      var full := resolved.path;
      JoinedStack(base, name);
      var made := fs.MkdirAll(base);
      if !made {
        return Refused(IoError);
      }
      var realBase, ok := fs.EvalSymlinks(base);
      var target, exist := fs.EvalSymlinks(full);
      if !ok || !exist {
        return Refused(IoError);
      }
      if !Within(target, realBase) {
        return Refused(PathEscape);
      }
      var info := fs.Stat(target);
      match info {
        case There(File(d)) => r := if |d| > MAX_FILE_BYTES then Refused(FileTooLarge) else Data(d);
        case _ => r := Refused(IoError);
      }
    }

    method WriteFile(name: string, data: string) returns (r: Result)
      requires Valid()
      modifies fs
      ensures Valid()
      ensures (fs.tree, r) == WritePath(old(fs.tree), fs.cwd, base, Resolve(base, name), data)
      ensures OrdinaryBase(base) ==>
                (fs.tree, r) == WriteAt(old(fs.tree), Locate(fs.cwd, base), TargetOf(base, name), data)
      ensures Stack(base) == [] ==> r.Refused?
    {
      ghost var t := fs.tree;
      if OrdinaryBase(base) { OrdinaryWrite(t, fs.cwd, base, name, data); }
      if Stack(base) == [] { NoSandboxAtTheTop(t, fs.cwd, base, name, data); }
      if |data| > MAX_FILE_BYTES {
        return Refused(FileTooLarge);
      }
      var resolved := Resolve(base, name);
      if resolved == Escape {
        return Refused(PathEscape);
      }
      var full := resolved.path;
      JoinedStack(base, name);
      var made := fs.MkdirAll(base);
      if !made {
        return Refused(IoError);
      }
      var realBase, ok := fs.EvalSymlinks(base);
      var dir := DirPath(full);
      CleanedDir(full);
      made := fs.MkdirAll(dir);
      if !made {
        return Refused(IoError);
      }
      var realDir, exist := fs.EvalSymlinks(dir);
      if !ok || !exist {
        return Refused(IoError);
      }
      if !Within(realDir, realBase) {
        return Refused(PathEscape);
      }
      var put := fs.Put(full, data);
      r := if put then Written else Refused(IoError);
    }
  }

  lemma CleanedDir(p: string)
    ensures Cleaned(DirPath(p))
  {
    var cs := Split(p, SEP);
    CleanIdempotent(Join(cs[..|cs| - 1] + [""], SEP));
  }

  /** The directory of a target, and that the sandbox's own directory exists already. */
  lemma DirectoryInSandbox(t: Tree, base: Location, rel: Location)
    requires WellFormed(t) && IsDir(t, base)
    ensures rel != [] ==> Parent(base + rel) == base + Parent(rel)
    ensures rel == [] ==> !Blocked(t, Parent(base + rel)) && WithDirs(t, Parent(base + rel)) == t
  {
    if rel == [] {
      assert base + rel == base;
      assert HasParent(t, base);
      WithDirsOfDir(t, Parent(base));
    } else {
      assert (base + rel)[..|base + rel| - 1] == base + rel[..|rel| - 1];
    }
  }
}
