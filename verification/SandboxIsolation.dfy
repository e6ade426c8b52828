/** All plugins' file sandboxes over one tree behave as one private tree per plugin. */
module SandboxIsolation {
  import opened Strings
  import opened Paths
  import opened PathGuard
  import opened FileTree
  import opened Sandbox

  // ---------------------------------------------------------------- one sandbox's view

  predicate SameAt(t: Tree, base: Location, v: Tree, l: Location) {
    FileTree.At(v, l) == FileTree.At(t, base + l)
  }

  /** `v` is what the shared tree holds at and below `base`. */
  ghost predicate View(t: Tree, base: Location, v: Tree) {
    forall l :: SameAt(t, base, v, l)
  }

  /** No file lies above the sandbox. */
  predicate Open(t: Tree, base: Location) { !Blocked(t, Parent(base)) }

  lemma PrefixSplit(base: Location, d: Location, l: Location)
    ensures base + l <= base + d <==> l <= d
  {
    if base + l <= base + d {
      assert (base + d)[..|base + l|] == base + l;
      assert (base + d)[..|base + l|][|base|..] == l;
      assert (base + d)[|base|..][..|l|] == l;
      assert (base + d)[|base|..] == d;
    }
    if l <= d { assert (base + d)[..|base| + |l|] == base + d[..|l|]; }
  }

  lemma ViewFile(t: Tree, base: Location, v: Tree, l: Location)
    requires View(t, base, v)
    ensures IsFile(v, l) == IsFile(t, base + l) && IsDir(v, l) == IsDir(t, base + l)
  {
    assert SameAt(t, base, v, l);
  }

  /** Below an open sandbox the way is blocked in the shared tree iff it is in the view. */
  lemma BlockedBelow(t: Tree, base: Location, v: Tree, d: Location)
    requires View(t, base, v) && Open(t, base)
    ensures Blocked(t, base + d) <==> Blocked(v, d)
  {
    if Blocked(v, d) {
      var i :| 0 <= i <= |d| && IsFile(v, d[..i]);
      ViewFile(t, base, v, d[..i]);
      assert base + d[..i] == (base + d)[..|base| + i];
    }
    forall j | 0 <= j < |base| ensures !IsFile(t, (base + d)[..j]) {
      assert (base + d)[..j] == Parent(base)[..j];
    }
    if Blocked(t, base + d) {
      var j :| 0 <= j <= |base + d| && IsFile(t, (base + d)[..j]);
      assert (base + d)[..j] == base + d[..j - |base|];
      ViewFile(t, base, v, d[..j - |base|]);
    }
  }

  lemma WithDirsBelow(t: Tree, base: Location, v: Tree, d: Location)
    requires View(t, base, v)
    ensures View(WithDirs(t, base + d), base, WithDirs(v, d))
  {
    forall l ensures SameAt(WithDirs(t, base + d), base, WithDirs(v, d), l) {
      assert SameAt(t, base, v, l);
      WithDirsAt(t, base + d, base + l);
      WithDirsAt(v, d, l);
      PrefixSplit(base, d, l);
    }
  }

  lemma PutBelow(t: Tree, base: Location, v: Tree, rel: Location, data: string)
    requires View(t, base, v)
    ensures View(t[base + rel := File(data)], base, v[rel := File(data)])
  {
    var u, w := t[base + rel := File(data)], v[rel := File(data)];
    forall l ensures SameAt(u, base, w, l) {
      assert SameAt(t, base, v, l);
      assert base + l == base + rel <==> l == rel by {
        assert (base + l)[|base|..] == l && (base + rel)[|base|..] == rel;
      }
    }
  }

  /** Creating directories at or below an open sandbox leaves it open. */
  lemma StaysOpen(t: Tree, base: Location, d: Location)
    requires Open(t, base)
    ensures Open(WithDirs(t, base + d), base)
  {
    var u := WithDirs(t, base + d);
    forall i | 0 <= i <= |Parent(base)| ensures !IsFile(u, Parent(base)[..i]) {
      assert !IsFile(t, Parent(base)[..i]);
      WithDirsAt(t, base + d, Parent(base)[..i]);
    }
  }

  /** A read of the shared tree answers as one of the private view, and leaves it in step. */
  lemma ReadRefines(t: Tree, base: Location, v: Tree, target: Target)
    requires View(t, base, v) && Open(t, base)
    ensures ReadAt(t, base, target).1 == ReadAt(v, [], target).1
    ensures View(ReadAt(t, base, target).0, base, ReadAt(v, [], target).0)
  {
    assert base + [] == base;
    BlockedBelow(t, base, v, []);
    WithDirsBelow(t, base, v, []);
    if target.At? && !Blocked(t, base) {
      assert SameAt(WithDirs(t, base), base, WithDirs(v, []), target.rel);
      assert [] + target.rel == target.rel;
    }
  }

  lemma WriteRefines(t: Tree, base: Location, v: Tree, target: Target, data: string)
    requires View(t, base, v) && Open(t, base)
    ensures WriteAt(t, base, target, data).1 == WriteAt(v, [], target, data).1
    ensures View(WriteAt(t, base, target, data).0, base, WriteAt(v, [], target, data).0)
  {
    assert base + [] == base;
    BlockedBelow(t, base, v, []);
    WithDirsBelow(t, base, v, []);
    if target.At? && !Blocked(t, base) && target.rel != [] {
      var rel, d := target.rel, Parent(target.rel);
      assert [] + rel == rel && [] + d == d;
      var t1, v1 := WithDirs(t, base), WithDirs(v, []);
      StaysOpen(t, base, []);
      BlockedBelow(t1, base, v1, d);
      WithDirsBelow(t1, base, v1, d);
      ViewFile(WithDirs(t1, base + d), base, WithDirs(v1, d), rel);
      PutBelow(WithDirs(t1, base + d), base, WithDirs(v1, d), rel, data);
    }
  }

  // ---------------------------------------------------------------- other sandboxes

  /** Nothing changed except directories created above or at `base`, and what lies below it. */
  ghost predicate ConfinedTo(t: Tree, u: Tree, base: Location) {
    forall l | !(base <= l) :: FileTree.At(u, l) == FileTree.At(t, l) || (l <= base && l !in t && IsDir(u, l))
  }

  lemma OpsAreConfined(t: Tree, base: Location, target: Target, data: string)
    ensures ConfinedTo(t, ReadAt(t, base, target).0, base)
    ensures ConfinedTo(t, WriteAt(t, base, target, data).0, base)
  {
    DirsConfined(t, base);
    if target.At? {
      var d := Parent(target.rel);
      forall l | l <= base ensures l in WithDirs(t, base) { WithDirsAt(t, base, l); }
      DirsBelowConfined(t, WithDirs(t, base), base, d);
      assert base <= base + target.rel;
    }
  }

  lemma DirsConfined(t: Tree, base: Location)
    ensures ConfinedTo(t, WithDirs(t, base), base)
  {
    forall l | !(base <= l)
      ensures FileTree.At(WithDirs(t, base), l) == FileTree.At(t, l) ||
              (l <= base && l !in t && IsDir(WithDirs(t, base), l))
    {
      WithDirsAt(t, base, l);
    }
  }

  lemma DirsBelowConfined(t: Tree, u: Tree, base: Location, d: Location)
    requires ConfinedTo(t, u, base) && forall l :: l <= base ==> l in u
    ensures ConfinedTo(t, WithDirs(u, base + d), base)
  {
    forall l | !(base <= l) ensures FileTree.At(WithDirs(u, base + d), l) == FileTree.At(u, l) {
      WithDirsAt(u, base + d, l);
      if l <= base + d { ComparablePrefixes(l, base, d); }
    }
  }

  lemma ComparablePrefixes(l: Location, base: Location, d: Location)
    requires l <= base + d
    ensures l <= base || base <= l
  {
    assert (base + d)[..|l|] == l;
    if |l| <= |base| { assert base[..|l|] == l; } else { assert l[..|base|] == base; }
  }

  /** Neither directory lies at or under the other. */
  predicate Apart(a: Location, b: Location) { !(a <= b) && !(b <= a) }

  /** Sandboxes apart from each other do not see each other's operations. */
  lemma SiblingUnchanged(t: Tree, u: Tree, a: Location, b: Location, v: Tree)
    requires Apart(a, b) && ConfinedTo(t, u, a) && View(t, b, v)
    ensures View(u, b, v)
  {
    forall l ensures SameAt(u, b, v, l) {
      assert SameAt(t, b, v, l);
      if a <= b + l { ComparablePrefixes(a, b, l); }
      assert b <= b + l;
      if b + l <= a { PrefixTrans(b, b + l, a); }
    }
  }

  lemma PrefixTrans(a: Location, b: Location, c: Location)
    requires a <= b <= c
    ensures a <= c
  {
    assert c[..|b|][..|a|] == c[..|a|];
  }

  lemma OpenStays(t: Tree, u: Tree, a: Location, b: Location)
    requires ConfinedTo(t, u, a) && Open(t, b) && (a == b != [] || Apart(a, b))
    ensures Open(u, b)
  {
    forall i | 0 <= i <= |Parent(b)| ensures !IsFile(u, Parent(b)[..i]) {
      var l := Parent(b)[..i];
      assert !IsFile(t, l);
      assert l == b[..i];
      if a <= l { PrefixTrans(a, l, b); }
    }
  }

  /** No operation makes a file of the sandbox's own directory. */
  lemma OpsStayOpen(t: Tree, base: Location, target: Target, data: string)
    requires Open(t, base)
    ensures Open(ReadAt(t, base, target).0, base) && Open(WriteAt(t, base, target, data).0, base)
  {
    OpsAreConfined(t, base, target, data);
    if base != [] {
      OpenStays(t, ReadAt(t, base, target).0, base, base);
      OpenStays(t, WriteAt(t, base, target, data).0, base, base);
    } else {
      assert !IsFile(t, Parent(base)[..0]);
      WithDirsAt(t, base, []);
      if target.At? { WithDirsAt(WithDirs(t, base), base + Parent(target.rel), []); }
    }
  }

  // ---------------------------------------------------------------- interleavings

  datatype Op = Read(plugin: string, name: string) | Write(plugin: string, name: string, data: string)

  /** Host.capsFor: each plugin's sandbox is the directory of its name under the plugins root. */
  function BaseOf(root: string, plugin: string): string { JoinPath(root, plugin) }

  function Perform(t: Tree, base: Location, root: string, op: Op): (Tree, Result) {
    var target := TargetOf(BaseOf(root, op.plugin), op.name);
    match op
    case Read(_, _) => ReadAt(t, base, target)
    case Write(_, _, data) => WriteAt(t, base, target, data)
  }

  function RunShared(t: Tree, cwd: Location, root: string, ops: seq<Op>): seq<Result>
    decreases |ops|
  {
    if ops == [] then []
    else
      var (u, r) := Perform(t, Locate(cwd, BaseOf(root, ops[0].plugin)), root, ops[0]);
      [r] + RunShared(u, cwd, root, ops[1..])
  }

  function ViewOf(views: map<string, Tree>, p: string): Tree {
    if p in views then views[p] else map[]
  }

  /** The same operations, each on its plugin's own private tree. */
  function RunPrivate(views: map<string, Tree>, root: string, ops: seq<Op>): seq<Result>
    decreases |ops|
  {
    if ops == [] then []
    else
      var p := ops[0].plugin;
      var (v, r) := Perform(ViewOf(views, p), [], root, ops[0]);
      [r] + RunPrivate(views[p := v], root, ops[1..])
  }

  predicate PluginsIn(ops: seq<Op>, names: set<string>) {
    forall op | op in ops :: op.plugin in names
  }

  /** Where a plugin's sandbox lies. */
  function Home(cwd: Location, root: string, plugin: string): Location { Locate(cwd, BaseOf(root, plugin)) }

  /** No file lies above any of the sandboxes. */
  predicate AllOpen(t: Tree, cwd: Location, root: string, names: set<string>) {
    forall p | p in names :: Open(t, Home(cwd, root, p))
  }

  ghost predicate Views(t: Tree, cwd: Location, root: string, views: map<string, Tree>, names: set<string>) {
    AllOpen(t, cwd, root, names) && forall p | p in names :: View(t, Home(cwd, root, p), ViewOf(views, p))
  }

  /** No sandbox is, or lies under, another. */
  predicate HomesApart(cwd: Location, root: string, names: set<string>) {
    forall a, b | a in names && b in names && a != b :: Apart(Home(cwd, root, a), Home(cwd, root, b))
  }

  /** A plugin whose name is one ordinary path component is sandboxed in that child of the root. */
  lemma BaseLocation(cwd: Location, root: string, plugin: string)
    requires Cleaned(root) && Ordinary(plugin)
    ensures Cleaned(BaseOf(root, plugin)) && OrdinaryBase(BaseOf(root, plugin))
    ensures Locate(cwd, BaseOf(root, plugin)) == Locate(cwd, root) + [plugin]
  {
    JoinedStack(root, plugin);
    SplitSingle(plugin, SEP);
    assert [plugin][1..] == [];
    assert Stack(BaseOf(root, plugin)) == Stack(root) + [plugin];
    var start := if IsAbs(root) then [] else cwd;
    CleanSameLocation(cwd, root);
    CleanSameLocation(cwd, BaseOf(root, plugin));
    WalkSnoc(start, Stack(root), plugin);
  }

  lemma PerformRefines(t: Tree, cwd: Location, root: string, views: map<string, Tree>, names: set<string>, op: Op)
    requires Views(t, cwd, root, views, names) && HomesApart(cwd, root, names) && op.plugin in names
    ensures var (u, r) := Perform(t, Home(cwd, root, op.plugin), root, op);
            var (v, q) := Perform(ViewOf(views, op.plugin), [], root, op);
            r == q && Views(u, cwd, root, views[op.plugin := v], names)
  {
    var n := op.plugin;
    var base, view := Home(cwd, root, n), ViewOf(views, n);
    var target := TargetOf(BaseOf(root, n), op.name);
    var data := if op.Write? then op.data else "";
    assert View(t, base, view) && Open(t, base);
    ReadRefines(t, base, view, target);
    WriteRefines(t, base, view, target, data);
    OpsAreConfined(t, base, target, data);
    OpsStayOpen(t, base, target, data);
    var u, v := Perform(t, base, root, op).0, Perform(view, [], root, op).0;
    assert ConfinedTo(t, u, base);
    forall p | p in names
      ensures Open(u, Home(cwd, root, p)) && View(u, Home(cwd, root, p), ViewOf(views[n := v], p))
    {
      if p != n {
        OpenStays(t, u, base, Home(cwd, root, p));
        SiblingUnchanged(t, u, base, Home(cwd, root, p), ViewOf(views, p));
      }
    }
  }

  lemma {:induction false} RunsAgree(t: Tree, cwd: Location, root: string, views: map<string, Tree>,
        names: set<string>, ops: seq<Op>)
    requires PluginsIn(ops, names) && HomesApart(cwd, root, names) && Views(t, cwd, root, views, names)
    ensures RunShared(t, cwd, root, ops) == RunPrivate(views, root, ops)
    decreases |ops|
  {
    if ops == [] {
    } else {
      assert ops[0] in ops && forall op | op in ops[1..] :: op in ops;
      var p := ops[0].plugin;
      PerformRefines(t, cwd, root, views, names, ops[0]);
      var (u, r) := Perform(t, Home(cwd, root, p), root, ops[0]);
      var (v, q) := Perform(ViewOf(views, p), [], root, ops[0]);
      RunsAgree(u, cwd, root, views[p := v], names, ops[1..]);
    }
  }

  /** The part of a tree at and below a location, as a tree of its own. */
  function Subtree(t: Tree, base: Location): Tree {
    map l | l in (set a | a in t && base <= a :: a[|base|..]) ::
      (assert base + l in t by { Regraft(t, base, l); } t[base + l])
  }

  lemma Regraft(t: Tree, base: Location, l: Location)
    ensures l in (set a | a in t && base <= a :: a[|base|..]) <==> base + l in t
  {
    if base + l in t { assert (base + l)[|base|..] == l && base <= base + l; }
    forall a | a in t && base <= a && a[|base|..] == l ensures base + l in t {
      assert a == base + l;
    }
  }

  lemma SubtreeIsView(t: Tree, base: Location)
    ensures View(t, base, Subtree(t, base))
  {
    forall l ensures SameAt(t, base, Subtree(t, base), l) { Regraft(t, base, l); }
  }

  function Subtrees(t: Tree, cwd: Location, root: string, names: set<string>): map<string, Tree> {
    map p | p in names :: Subtree(t, Home(cwd, root, p))
  }

  /** Whatever the plugins do and whatever the tree held, as long as no file lies above a sandbox,
      every interleaving of reads and writes answers as if each plugin had its own tree, taken from
      its sandbox at the start. */
  ghost predicate Isolated(cwd: Location, root: string, names: set<string>) {
    forall t, ops | AllOpen(t, cwd, root, names) && PluginsIn(ops, names) ::
      RunShared(t, cwd, root, ops) == RunPrivate(Subtrees(t, cwd, root, names), root, ops)
  }

  lemma ApartIsIsolated(cwd: Location, root: string, names: set<string>)
    requires HomesApart(cwd, root, names)
    ensures Isolated(cwd, root, names)
  {
    forall t, ops | AllOpen(t, cwd, root, names) && PluginsIn(ops, names)
      ensures RunShared(t, cwd, root, ops) == RunPrivate(Subtrees(t, cwd, root, names), root, ops)
    {
      var views := Subtrees(t, cwd, root, names);
      forall p | p in names ensures View(t, Home(cwd, root, p), ViewOf(views, p)) {
        SubtreeIsView(t, Home(cwd, root, p));
      }
      RunsAgree(t, cwd, root, views, names, ops);
    }
  }

  /** In such a run a plugin reads back what it wrote, under every name with the same normal form. */
  lemma SharedReadsBack(t: Tree, cwd: Location, root: string, p: string, n: string, m: string, data: string)
    requires Cleaned(BaseOf(root, p)) && Clean(n) == Clean(m)
    ensures var rs := RunShared(t, cwd, root, [Write(p, n, data), Read(p, m)]);
            |rs| == 2 && (rs[0] == Written ==> rs[1] == Data(data))
  {
    var write, read, home := Write(p, n, data), Read(p, m), Home(cwd, root, p);
    assert [write, read][1..] == [read] && [read][1..] == [];
    var (u, r) := Perform(t, home, root, write);
    assert RunShared(u, cwd, root, [read]) == [Perform(u, home, root, read).1];
    if r == Written { WriteThenRead(t, cwd, BaseOf(root, p), n, m, data); }
  }

  /** Plugins whose names are distinct ordinary path components are isolated, in every tree with no
      file on the way to the plugins root. */
  lemma SandboxesAreIsolated(cwd: Location, root: string, names: set<string>)
    requires Cleaned(root) && forall n | n in names :: Ordinary(n)
    ensures Isolated(cwd, root, names)
    ensures forall t | !Blocked(t, Locate(cwd, root)) :: AllOpen(t, cwd, root, names)
  {
    forall t, n | !Blocked(t, Locate(cwd, root)) && n in names ensures Open(t, Home(cwd, root, n)) {
      BaseLocation(cwd, root, n);
      assert Parent(Locate(cwd, root) + [n]) == Locate(cwd, root);
    }
    forall a, b | a in names && b in names && a != b
      ensures Apart(Home(cwd, root, a), Home(cwd, root, b))
    {
      BaseLocation(cwd, root, a);
      BaseLocation(cwd, root, b);
      var at := Locate(cwd, root);
      assert (at + [a])[|at|] == a && (at + [b])[|at|] == b;
    }
    ApartIsIsolated(cwd, root, names);
  }
}
